/** ASCII text helpers shared by the Go codecs (`strings.TrimSpace`, `strings.ToLower`,
    `strings.Split`, `strings.Join`, `sort.Strings`) and the C++ ones (`trim`, `split`). */
module Text {

  datatype Option<+T> = None | Some(value: T)

  datatype Result<+T, +E> = Ok(value: T) | Err(error: E)

  /** The six ASCII white-space characters: tab, newline, vertical tab, form feed, carriage return, blank. */
  predicate IsSpace(c: char) {
    c == ' ' || '\t' <= c <= '\r'
  }

  function TrimLeft(s: string): string {
    if s != "" && IsSpace(s[0]) then TrimLeft(s[1..]) else s
  }

  function TrimRight(s: string): string {
    if s != "" && IsSpace(s[|s| - 1]) then TrimRight(s[..|s| - 1]) else s
  }

  function Trim(s: string): string {
    TrimRight(TrimLeft(s))
  }

  /** No white space at either end. */
  predicate Trimmed(s: string) {
    s == "" || (!IsSpace(s[0]) && !IsSpace(s[|s| - 1]))
  }

  function LowerChar(c: char): char {
    if 'A' <= c <= 'Z' then (c as int + 32) as char else c
  }

  function ToLower(s: string): (r: string)
    ensures |r| == |s|
    ensures forall i :: 0 <= i < |s| ==> r[i] == LowerChar(s[i])
  {
    seq(|s|, i requires 0 <= i < |s| => LowerChar(s[i]))
  }

  predicate HasPrefix(s: string, p: string) {
    p <= s
  }

  /** Index of the first `c` in `s`, or |s| when there is none. */
  function IndexOf(s: string, c: char): (i: nat)
    ensures i <= |s|
    ensures i < |s| ==> s[i] == c
    ensures forall j :: 0 <= j < i ==> s[j] != c
  {
    if s == "" || s[0] == c then 0 else 1 + IndexOf(s[1..], c)
  }

  /** `strings.Split` on a one-character separator, and the C++ `split`: the pieces
      between separators, so one more piece than there are separators. */
  function Split(s: string, c: char): (parts: seq<string>)
    ensures |parts| > 0
    ensures forall p :: p in parts ==> c !in p
    decreases |s|
  {
    var i := IndexOf(s, c);
    if i == |s| then [s] else [s[..i]] + Split(s[i + 1..], c)
  }

  function Join(parts: seq<string>, c: char): string {
    if parts == [] then "" else if |parts| == 1 then parts[0]
    else parts[0] + [c] + Join(parts[1..], c)
  }

  /** Every line followed by a newline. */
  function Unlines(lines: seq<string>): string {
    if lines == [] then "" else lines[0] + "\n" + Unlines(lines[1..])
  }

  // ---- trimming ----------------------------------------------------------

  lemma TrimLeftTrims(s: string)
    ensures TrimLeft(s) == "" || !IsSpace(TrimLeft(s)[0])
    ensures |TrimLeft(s)| <= |s|
    ensures TrimLeft(s) == s[|s| - |TrimLeft(s)|..]
  {
  }

  lemma TrimRightTrims(s: string)
    ensures |TrimRight(s)| <= |s|
    ensures TrimRight(s) == s[..|TrimRight(s)|]
    ensures TrimRight(s) == "" || !IsSpace(TrimRight(s)[|TrimRight(s)| - 1])
  {
  }

  /** Trimming yields a trimmed contiguous piece of the text. */
  lemma TrimTrims(s: string)
    ensures Trimmed(Trim(s))
    ensures |Trim(s)| <= |s|
    ensures forall c :: c in Trim(s) ==> c in s
  {
    TrimLeftTrims(s);
    TrimRightTrims(TrimLeft(s));
  }

  lemma TrimIdentity(s: string)
    requires Trimmed(s)
    ensures Trim(s) == s
  {
  }

  lemma TrimLeftSpace(s: string)
    ensures Trim(" " + s) == Trim(s)
  {
    assert (" " + s)[1..] == s;
  }

  lemma TrimLeftAppend(s: string)
    requires s != "" && !IsSpace(s[0])
    ensures Trim(s + " ") == Trim(s)
  {
    assert (s + " ")[..|s|] == s;
    assert TrimLeft(s + " ") == s + " ";
    assert TrimLeft(s) == s;
  }

  lemma LowerIdempotent(s: string)
    ensures ToLower(ToLower(s)) == ToLower(s)
  {
  }

  /** Lower-casing never turns a non-space into a space or back. */
  lemma LowerKeepsTrimmed(s: string)
    ensures Trimmed(s) ==> Trimmed(ToLower(s))
  {
  }

  // ---- splitting and joining ---------------------------------------------

  lemma IndexOfAt(p: string, c: char, rest: string)
    requires c !in p
    ensures IndexOf(p + [c] + rest, c) == |p|
  {
    var s := p + [c] + rest;
    assert s[|p|] == c;
    forall j | 0 <= j < |p| ensures s[j] != c { assert s[j] == p[j]; }
  }

  lemma IndexOfAbsent(p: string, c: char)
    requires c !in p
    ensures IndexOf(p, c) == |p|
  {
  }

  lemma SplitCons(p: string, c: char, rest: string)
    requires c !in p
    ensures Split(p + [c] + rest, c) == [p] + Split(rest, c)
  {
    var s := p + [c] + rest;
    IndexOfAt(p, c, rest);
    assert s[..|p|] == p && s[|p| + 1..] == rest;
  }

  /** Splitting undoes joining, for pieces free of the separator. */
  lemma {:induction false} SplitJoin(parts: seq<string>, c: char)
    requires parts != []
    requires forall p :: p in parts ==> c !in p
    ensures Split(Join(parts, c), c) == parts
  {
    if |parts| == 1 {
      IndexOfAbsent(parts[0], c);
    } else {
      SplitJoin(parts[1..], c);
      SplitCons(parts[0], c, Join(parts[1..], c));
    }
  }

  /** Splitting a text of terminated lines gives the lines and one empty rest. */
  lemma {:induction false} SplitUnlines(lines: seq<string>)
    requires forall l :: l in lines ==> '\n' !in l
    ensures Split(Unlines(lines), '\n') == lines + [""]
  {
    if lines != [] {
      SplitUnlines(lines[1..]);
      SplitCons(lines[0], '\n', Unlines(lines[1..]));
      assert lines[0] + "\n" + Unlines(lines[1..]) == lines[0] + ['\n'] + Unlines(lines[1..]);
    }
  }

  lemma {:induction false} JoinEnds(parts: seq<string>, c: char)
    requires parts != [] && parts[0] != "" && parts[|parts| - 1] != ""
    ensures Join(parts, c) != "" && Join(parts, c)[0] == parts[0][0]
    ensures var last := parts[|parts| - 1]; Join(parts, c)[|Join(parts, c)| - 1] == last[|last| - 1]
    decreases |parts|
  {
    if |parts| == 1 {
    } else if |parts| == 2 {
      assert parts[1..] == [parts[1]];
    } else {
      JoinTail(parts[1..], c);
      assert parts[1..][|parts| - 2] == parts[|parts| - 1];
    }
  }

  lemma {:induction false} JoinTail(parts: seq<string>, c: char)
    requires parts != [] && parts[|parts| - 1] != ""
    ensures Join(parts, c) != ""
    ensures var last := parts[|parts| - 1]; Join(parts, c)[|Join(parts, c)| - 1] == last[|last| - 1]
    decreases |parts|
  {
    if |parts| > 1 {
      JoinTail(parts[1..], c);
      assert parts[1..][|parts| - 2] == parts[|parts| - 1];
    }
  }

  lemma JoinTrimmed(parts: seq<string>, c: char)
    requires forall i :: 0 <= i < |parts| ==> parts[i] != "" && Trimmed(parts[i])
    ensures Trimmed(Join(parts, c))
  {
    if parts != [] { JoinEnds(parts, c); }
  }

  lemma JoinChars(parts: seq<string>, c: char, x: char)
    requires x in Join(parts, c)
    ensures x == c || exists i :: 0 <= i < |parts| && x in parts[i]
  {
    if |parts| > 1 {
      if x !in parts[0] && x != c {
        JoinChars(parts[1..], c, x);
        var i :| 0 <= i < |parts[1..]| && x in parts[1..][i];
        assert x in parts[i + 1];
      }
    }
  }

  // ---- the byte order of strings and `sort.Strings` ----------------------

  /** Byte-wise lexicographic order. */
  predicate Less(a: string, b: string) {
    b != "" && (a == "" || a[0] < b[0] || (a[0] == b[0] && Less(a[1..], b[1..])))
  }

  lemma LessTotal(a: string, b: string)
    ensures Less(a, b) || a == b || Less(b, a)
  {
    if a != "" && b != "" && a[0] == b[0] {
      LessTotal(a[1..], b[1..]);
      assert a == [a[0]] + a[1..] && b == [b[0]] + b[1..];
    }
  }

  lemma LessAsymmetric(a: string, b: string)
    requires Less(a, b)
    ensures a != b && !Less(b, a)
  {
  }

  lemma LessTransitive(a: string, b: string, c: string)
    requires Less(a, b) && Less(b, c)
    ensures Less(a, c)
  {
  }

  lemma {:induction false} LessPrefix(p: string, a: string, b: string)
    ensures Less(p + a, p + b) <==> Less(a, b)
  {
    if p == "" {
      assert p + a == a && p + b == b;
    } else {
      LessPrefix(p[1..], a, b);
      assert (p + a)[1..] == p[1..] + a && (p + b)[1..] == p[1..] + b;
    }
  }

  /** Strictly increasing. */
  ghost predicate Increasing(q: seq<string>) {
    forall i, j :: 0 <= i < j < |q| ==> Less(q[i], q[j])
  }

  ghost function Elements(q: seq<string>): set<string> {
    set x | x in q
  }

  lemma ElementsNonEmpty(q: seq<string>)
    requires q != []
    ensures Elements(q) != {}
  {
    assert q[0] in Elements(q);
  }

  /** A strictly increasing enumeration of a set is unique: this is what makes a
      printer that sorts independent of the order in which a map is walked. */
  lemma {:induction false} IncreasingUnique(p: seq<string>, q: seq<string>)
    requires Increasing(p) && Increasing(q)
    requires Elements(p) == Elements(q)
    ensures p == q
  {
    if p == [] {
      if q != [] { ElementsNonEmpty(q); }
    } else {
      assert p[0] in Elements(q);
      assert q != [] && q[0] in Elements(p);
      assert p[0] == q[0] by {
        var i :| 0 <= i < |q| && q[i] == p[0];
        var j :| 0 <= j < |p| && p[j] == q[0];
        if i > 0 && j > 0 { LessAsymmetric(q[0], q[i]); }
      }
      forall x | x in p[1..] ensures x in q[1..] {
        var i :| 0 <= i < |p[1..]| && p[1..][i] == x;
        LessAsymmetric(p[0], p[i + 1]);
        assert x in Elements(q);
      }
      forall x | x in q[1..] ensures x in p[1..] {
        var i :| 0 <= i < |q[1..]| && q[1..][i] == x;
        LessAsymmetric(q[0], q[i + 1]);
        assert x in Elements(p);
      }
      IncreasingUnique(p[1..], q[1..]);
    }
  }

  ghost predicate IsLeast(m: string, s: set<string>) {
    m in s && forall x :: x in s && x != m ==> Less(m, x)
  }

  lemma LeastExists(s: set<string>) returns (m: string)
    requires s != {}
    ensures IsLeast(m, s)
  {
    var y :| y in s;
    if s == {y} {
      m := y;
    } else {
      var rest := s - {y};
      assert s == rest + {y};
      var r := LeastExists(rest);
      LessTotal(r, y);
      m := if Less(y, r) then y else r;
      forall x | x in s && x != m ensures Less(m, x) {
        if x in rest && x != r && m == y { LessTransitive(y, r, x); }
      }
    }
  }

  ghost function Least(s: set<string>): (m: string)
    requires s != {}
    ensures IsLeast(m, s)
  {
    assert exists m :: IsLeast(m, s) by { var m := LeastExists(s); }
    var m :| IsLeast(m, s); m
  }

  /** The elements of a set in increasing order. */
  ghost function Sorted(s: set<string>): seq<string> {
    if s == {} then [] else [Least(s)] + Sorted(s - {Least(s)})
  }

  lemma {:induction false} SortedSorts(s: set<string>)
    ensures Increasing(Sorted(s)) && Elements(Sorted(s)) == s
  {
    if s != {} {
      var m := Least(s);
      SortedSorts(s - {m});
      ConsIncreasing(m, Sorted(s - {m}));
      assert s == (s - {m}) + {m};
    }
  }

  lemma ConsIncreasing(m: string, q: seq<string>)
    requires Increasing(q)
    requires forall x :: x in Elements(q) ==> Less(m, x)
    ensures Increasing([m] + q)
    ensures Elements([m] + q) == Elements(q) + {m}
  {
    forall j | 0 <= j < |q| ensures Less(m, q[j]) { assert q[j] in Elements(q); }
  }

  /** Insertion sort, standing for `sort.Strings` on a slice without duplicates. */
  method SortStrings(q: seq<string>) returns (r: seq<string>)
    requires |q| == |Elements(q)|
    ensures r == Sorted(Elements(q))
  {
    r := [];
    var i := 0;
    while i < |q|
      invariant 0 <= i <= |q|
      invariant Increasing(r) && Elements(r) == Elements(q[..i])
    {
      var k := 0;
      assert q[..i + 1] == q[..i] + [q[i]];
      if q[i] in r {
        DuplicateShrinks(q, i);
        assert false;
      }
      while k < |r| && Less(r[k], q[i])
        invariant 0 <= k <= |r|
        invariant forall j :: 0 <= j < k ==> Less(r[j], q[i])
      {
        k := k + 1;
      }
      InsertKeepsOrder(r, k, q[i]);
      r := r[..k] + [q[i]] + r[k..];
      assert Elements(r) == Elements(q[..i + 1]);
      i := i + 1;
    }
    assert q[..|q|] == q;
    SortedSorts(Elements(q));
    IncreasingUnique(r, Sorted(Elements(q)));
  }

  lemma InsertKeepsOrder(r: seq<string>, k: nat, x: string)
    requires Increasing(r) && k <= |r| && x !in r
    requires forall j :: 0 <= j < k ==> Less(r[j], x)
    requires k < |r| ==> !Less(r[k], x)
    ensures Increasing(r[..k] + [x] + r[k..])
    ensures Elements(r[..k] + [x] + r[k..]) == Elements(r) + {x}
  {
    var n := r[..k] + [x] + r[k..];
    forall j | k <= j < |r| ensures Less(x, r[j]) {
      LessTotal(x, r[k]);
      if j > k { LessTransitive(x, r[k], r[j]); }
    }
    assert forall j :: 0 <= j < k ==> n[j] == r[j];
    assert forall j :: k < j < |n| ==> n[j] == r[j - 1];
    assert forall y :: y in r ==> y in r[..k] || y in r[k..];
  }

  lemma ElementsCount(q: seq<string>)
    ensures |Elements(q)| <= |q|
  {
    if q != [] {
      ElementsCount(q[1..]);
      assert q == [q[0]] + q[1..];
      assert Elements(q) == Elements(q[1..]) + {q[0]};
    }
  }

  lemma DuplicateShrinks(q: seq<string>, i: nat)
    requires i < |q| && q[i] in Elements(q[..i])
    ensures |Elements(q)| < |q|
  {
    var rest := q[..i] + q[i + 1..];
    assert q == q[..i] + [q[i]] + q[i + 1..];
    assert Elements(q) == Elements(rest);
    ElementsCount(rest);
  }
}
