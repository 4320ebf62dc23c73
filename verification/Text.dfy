/** Strings as the source compares, trims and prints them. */
module Text {

  predicate IsSpace(c: char) {
    c == ' ' || '\t' <= c <= '\r' || '\U{1c}' <= c <= '\U{1f}'
  }

  /** `s == s.strip()`. */
  predicate Trimmed(s: string) {
    s != "" ==> !IsSpace(s[0]) && !IsSpace(s[|s| - 1])
  }

  /** `s.strip()`. */
  function Strip(s: string): (r: string)
    ensures Trimmed(r)
    ensures Trimmed(s) ==> r == s
    ensures |r| <= |s| && forall c :: c in r ==> c in s
  {
    if s == "" then s
    else if IsSpace(s[0]) then Strip(s[1..])
    else if IsSpace(s[|s| - 1]) then Strip(s[..|s| - 1])
    else s
  }

  /** Non-empty and already stripped: what every strict key must be. */
  predicate Normalized(s: string) { s != "" && Trimmed(s) }

  // ---- ASCII letters -----------------------------------------------------------------

  predicate IsLower(c: char) { 'a' <= c <= 'z' }

  predicate IsUpper(c: char) { 'A' <= c <= 'Z' }

  predicate IsAlphanumeric(c: char) { IsLower(c) || IsUpper(c) || '0' <= c <= '9' }

  function UpperChar(c: char): char { if IsLower(c) then c - 'a' + 'A' else c }

  function LowerChar(c: char): char { if IsUpper(c) then c - 'A' + 'a' else c }

  function Upper(s: string): (r: string)
    ensures |r| == |s| && forall i :: 0 <= i < |s| ==> r[i] == UpperChar(s[i])
  {
    seq(|s|, i requires 0 <= i < |s| => UpperChar(s[i]))
  }

  function Lower(s: string): (r: string)
    ensures |r| == |s| && forall i :: 0 <= i < |s| ==> r[i] == LowerChar(s[i])
  {
    seq(|s|, i requires 0 <= i < |s| => LowerChar(s[i]))
  }

  // ---- the order of `sorted` and of `<` on strings ------------------------------

  predicate Less(a: string, b: string)
    decreases a
  {
    if b == "" then false
    else if a == "" then true
    else a[0] < b[0] || (a[0] == b[0] && Less(a[1..], b[1..]))
  }

  predicate AtMost(a: string, b: string) { !Less(b, a) }

  lemma {:induction false} LessIsTransitive(a: string, b: string, c: string)
    requires AtMost(a, b) && AtMost(b, c)
    ensures AtMost(a, c)
    ensures Less(a, b) || Less(b, c) ==> Less(a, c)
  {
    if a != "" && b != "" && c != "" && a[0] == b[0] == c[0] {
      LessIsTransitive(a[1..], b[1..], c[1..]);
    }
  }

  lemma {:induction false} LessIsTotal(a: string, b: string)
    ensures !(Less(a, b) && Less(b, a))
    ensures Less(a, b) || Less(b, a) || a == b
    ensures !Less(a, a)
  {
    if a != "" && b != "" {
      LessIsTotal(a[1..], b[1..]);
      if a[0] == b[0] && a[1..] == b[1..] {
        assert a == [a[0]] + a[1..] && b == [b[0]] + b[1..];
      }
    }
    if a != "" {
      LessIsTotal(a[1..], a[1..]);
    }
  }

  // ---- sorting --------------------------------------------------------------------

  predicate SortedBy<T>(items: seq<T>, name: T -> string) {
    forall i, j :: 0 <= i < j < |items| ==> AtMost(name(items[i]), name(items[j]))
  }

  predicate Distinct<T(==)>(items: seq<T>) {
    forall i, j :: 0 <= i < j < |items| ==> items[i] != items[j]
  }

  lemma InsertionKeepsOrder<T>(items: seq<T>, i: nat, x: T, name: T -> string)
    requires i <= |items| && SortedBy(items, name)
    requires i > 0 ==> AtMost(name(items[i - 1]), name(x))
    requires i < |items| ==> AtMost(name(x), name(items[i]))
    ensures SortedBy(items[..i] + [x] + items[i..], name)
  {
    forall j | 0 <= j < |items|
      ensures j < i ==> AtMost(name(items[j]), name(x))
      ensures i <= j ==> AtMost(name(x), name(items[j]))
    {
      if j < i - 1 {
        LessIsTransitive(name(items[j]), name(items[i - 1]), name(x));
      } else if i < j {
        LessIsTransitive(name(x), name(items[i]), name(items[j]));
      }
    }
  }

  lemma InsertionKeepsDistinct<T>(items: seq<T>, i: nat, x: T)
    requires i <= |items| && Distinct(items) && x !in items
    ensures Distinct(items[..i] + [x] + items[i..])
    ensures forall y :: y in items[..i] + [x] + items[i..] <==> y == x || y in items
  {
    assert items == items[..i] + items[i..];
  }

  /** `sorted(items, key=name)` for a set of items, by insertion. */
  method Sorted<T(==)>(items: set<T>, name: T -> string) returns (ordered: seq<T>)
    ensures SortedBy(ordered, name) && Distinct(ordered)
    ensures forall x :: x in ordered <==> x in items
  {
    ordered := [];
    var todo := items;
    while todo != {}
      invariant todo <= items
      invariant SortedBy(ordered, name) && Distinct(ordered)
      invariant forall x :: x in ordered <==> x in items && x !in todo
      decreases |todo|
    {
      var x :| x in todo;
      todo := todo - {x};
      var i := 0;
      while i < |ordered| && Less(name(ordered[i]), name(x))
        invariant 0 <= i <= |ordered|
        invariant i > 0 ==> AtMost(name(ordered[i - 1]), name(x))
      {
        LessIsTotal(name(ordered[i]), name(x));
        i := i + 1;
      }
      InsertionKeepsOrder(ordered, i, x, name);
      InsertionKeepsDistinct(ordered, i, x);
      ordered := ordered[..i] + [x] + ordered[i..];
    }
  }
}
