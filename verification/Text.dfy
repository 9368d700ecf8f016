/** Rendering and parsing of numbers, the lexicographic order on strings, sorting and joining:
    what `fmt.Sprintf("%v")`, `fmt.Sprintf("%x")`, `sort.Slice` and `strings.Join` do. */
module Text {

  // ---- Numbers in base 10 and 16 ----

  predicate Base(b: nat) { b == 10 || b == 16 }

  function DigitValue(c: char): (d: int)
    ensures -1 <= d < 16
  {
    if '0' <= c <= '9' then c as int - '0' as int
    else if 'a' <= c <= 'f' then c as int - 'a' as int + 10
    else -1
  }

  function Digit(d: nat): (c: char)
    requires d < 16
    ensures DigitValue(c) == d
  {
    if d < 10 then (d + '0' as int) as char else (d - 10 + 'a' as int) as char
  }

  predicate IsDigits(s: string, b: nat)
  {
    forall i :: 0 <= i < |s| ==> 0 <= DigitValue(s[i]) < b
  }

  function Render(n: nat, b: nat): (s: string)
    requires Base(b)
    ensures |s| > 0 && IsDigits(s, b)
  {
    if n < b then [Digit(n)] else Render(n / b, b) + [Digit(n % b)]
  }

  function Value(s: string, b: nat): nat
    requires IsDigits(s, b)
  {
    if s == [] then 0 else Value(s[..|s| - 1], b) * b + DigitValue(s[|s| - 1])
  }

  function Dec(n: nat): string { Render(n, 10) }

  function Hex(n: nat): string { Render(n, 16) }

  lemma ValueOfLast(s: string, c: char, b: nat)
    requires IsDigits(s + [c], b) && IsDigits(s, b)
    ensures Value(s + [c], b) == Value(s, b) * b + DigitValue(c)
  {
    assert (s + [c])[..|s|] == s;
  }

  lemma {:induction false} ValueOfRender(n: nat, b: nat)
    requires Base(b)
    ensures Value(Render(n, b), b) == n
  {
    if n < b {
      ValueOfLast([], Digit(n), b);
      assert [] + [Digit(n)] == Render(n, b);
    } else {
      ValueOfRender(n / b, b);
      ValueOfLast(Render(n / b, b), Digit(n % b), b);
    }
  }

  lemma RenderInjective(m: nat, n: nat, b: nat)
    requires Base(b) && Render(m, b) == Render(n, b)
    ensures m == n
  {
    ValueOfRender(m, b);
    ValueOfRender(n, b);
  }

  // ---- Lexicographic order and sorting ----

  predicate Less(a: string, b: string)
  {
    b != [] && (a == [] || a[0] < b[0] || (a[0] == b[0] && Less(a[1..], b[1..])))
  }

  lemma {:induction false} LessTotal(a: string, b: string)
    ensures Less(a, b) || a == b || Less(b, a)
    ensures !(Less(a, b) && Less(b, a))
    ensures !Less(a, a)
  {
    if a != [] && b != [] {
      LessTotal(a[1..], b[1..]);
      assert a == [a[0]] + a[1..] && b == [b[0]] + b[1..];
    }
    if a != [] {
      LessTotal(a[1..], a[1..]);
    }
  }

  lemma {:induction false} LessTransitive(a: string, b: string, c: string)
    requires Less(a, b) && Less(b, c)
    ensures Less(a, c)
  {
    if a != [] && a[0] == b[0] == c[0] {
      LessTransitive(a[1..], b[1..], c[1..]);
    }
  }

  ghost predicate Sorted(s: seq<string>)
  {
    forall i, j :: 0 <= i < j < |s| ==> !Less(s[j], s[i])
  }

  lemma SortedHead(a: seq<string>, b: seq<string>)
    requires Sorted(a) && a != [] && b != [] && multiset(a) == multiset(b)
    ensures !Less(b[0], a[0])
  {
    assert b[0] in multiset(a);
    var j :| 0 <= j < |a| && a[j] == b[0];
    LessTotal(a[0], a[0]);
  }

  /** The order `sort.Slice` establishes determines the slice: two sorted permutations are equal. */
  lemma {:induction false} SortedUnique(a: seq<string>, b: seq<string>)
    requires Sorted(a) && Sorted(b) && multiset(a) == multiset(b)
    ensures a == b
  {
    if a == [] {
      assert |multiset(b)| == 0;
    } else {
      assert |multiset(a)| == |a| && |multiset(b)| == |b|;
      SortedHead(a, b);
      SortedHead(b, a);
      LessTotal(a[0], b[0]);
      assert a == [a[0]] + a[1..] && b == [b[0]] + b[1..];
      assert multiset(a[1..]) == multiset(a) - multiset{a[0]};
      assert multiset(b[1..]) == multiset(b) - multiset{b[0]};
      SortedUnique(a[1..], b[1..]);
    }
  }

  function InsertSorted(x: string, s: seq<string>): (r: seq<string>)
    ensures multiset(r) == multiset(s) + multiset{x}
  {
    if s == [] then [x]
    else if Less(s[0], x) then
      var r := [s[0]] + InsertSorted(x, s[1..]);
      assert s == [s[0]] + s[1..];
      r
    else [x] + s
  }

  /** `sort.Slice`, a library function: some sorted permutation; SortedUnique says which. */
  function Sort(s: seq<string>): (r: seq<string>)
    ensures multiset(r) == multiset(s)
  {
    if s == [] then []
    else
      assert s == [s[0]] + s[1..];
      InsertSorted(s[0], Sort(s[1..]))
  }

  lemma {:induction false} InsertSortedSorts(x: string, s: seq<string>)
    requires Sorted(s)
    ensures Sorted(InsertSorted(x, s))
  {
    if s != [] {
      LessTotal(s[0], x);
      if Less(s[0], x) {
        InsertSortedSorts(x, s[1..]);
        var r := InsertSorted(x, s[1..]);
        forall j | 0 <= j < |r| ensures !Less(r[j], s[0]) {
          assert r[j] in multiset(s[1..]) + multiset{x};
        }
      } else {
        forall j | 0 <= j < |s| ensures !Less(s[j], x) {
          if Less(s[j], x) {
            LessTotal(s[j], s[0]);
            LessTotal(s[0], s[0]);
            if s[0] != s[j] { LessTransitive(s[0], s[j], x); }
          }
        }
      }
    }
  }

  lemma {:induction false} SortSorts(s: seq<string>)
    ensures Sorted(Sort(s))
  {
    if s != [] {
      SortSorts(s[1..]);
      InsertSortedSorts(s[0], Sort(s[1..]));
    }
  }

  /** Sorting forgets the order of the input. */
  lemma SortCanonical(a: seq<string>, b: seq<string>)
    requires multiset(a) == multiset(b)
    ensures Sort(a) == Sort(b)
  {
    SortSorts(a);
    SortSorts(b);
    SortedUnique(Sort(a), Sort(b));
  }

  // ---- Joining with a comma ----

  function Join(parts: seq<string>): string
  {
    if |parts| == 0 then []
    else if |parts| == 1 then parts[0]
    else parts[0] + "," + Join(parts[1..])
  }

  ghost predicate Joinable(parts: seq<string>)
  {
    forall i :: 0 <= i < |parts| ==> parts[i] != [] && ',' !in parts[i]
  }

  ghost predicate FirstAt(s: string, c: char, i: nat)
  {
    i <= |s| && (forall j :: 0 <= j < i ==> s[j] != c) && (i < |s| ==> s[i] == c)
  }

  /** The index of the first `c`, or the length: `strings.Index` with -1 replaced. */
  function IndexOf(s: string, c: char): (i: nat)
    ensures FirstAt(s, c, i)
    ensures forall j: nat :: FirstAt(s, c, j) ==> j == i
  {
    if s == [] || s[0] == c then 0
    else
      var i := 1 + IndexOf(s[1..], c);
      assert forall j :: 0 <= j < i ==> s[j] != c by {
        forall j | 0 <= j < i ensures s[j] != c {
          if j > 0 { assert s[j] == s[1..][j - 1]; }
        }
      }
      i
  }

  lemma JoinHead(parts: seq<string>)
    requires Joinable(parts) && parts != []
    ensures FirstAt(Join(parts), ',', |parts[0]|)
    ensures Join(parts)[..|parts[0]|] == parts[0]
    ensures (|parts| == 1) == (Join(parts) == parts[0])
    ensures |parts| > 1 ==> Join(parts)[|parts[0]| + 1..] == Join(parts[1..])
  {
  }

  /** Comma-free non-empty parts can be read back from the joined string. */
  lemma {:induction false} JoinInjective(a: seq<string>, b: seq<string>)
    requires Joinable(a) && Joinable(b) && Join(a) == Join(b)
    ensures a == b
  {
    if a == [] || b == [] {
      if a != [] { JoinHead(a); }
      if b != [] { JoinHead(b); }
    } else {
      JoinHead(a);
      JoinHead(b);
      var i := IndexOf(Join(a), ',');
      assert |a[0]| == i == |b[0]|;
      assert a == [a[0]] + a[1..] && b == [b[0]] + b[1..];
      if |a| > 1 {
        JoinInjective(a[1..], b[1..]);
      }
    }
  }
}
