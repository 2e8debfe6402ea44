/** The unified configuration file: `parseINI` and `renderUnifiedConfig` of dashboard/config.go.

    The parser reads with Go's `bufio.Scanner`, whose default buffer of 65536 bytes must hold a
    line and its newline: a longer line makes the whole parse fail. That limit decides when the
    round trip through the printer holds. */
module Ini {
  import opened Text

  type Section = map<string, string>
  type Document = map<string, Section>

  /** Longest line the scanner delivers. */
  const MAX_LINE: nat := 65535

  datatype ParseError =
    | EmptySection(line: nat)
    | MissingEquals(line: nat)
    | EmptyKey(line: nat)
    | LineTooLong

  /** What the parser carries from line to line: the document so far and the open section. */
  datatype Cursor = Cursor(doc: Document, section: string)

  const START: Cursor := Cursor(map["edge" := map[]], "edge")

  predicate IsHeader(raw: string) {
    raw != "" && raw[0] == '[' && raw[|raw| - 1] == ']'
  }

  predicate IsSkipped(raw: string) {
    raw == "" || raw[0] == '#' || raw[0] == ';'
  }

  function Open(c: Cursor, s: string): Cursor {
    Cursor(if s in c.doc then c.doc else c.doc[s := map[]], s)
  }

  function Current(c: Cursor): Section {
    if c.section in c.doc then c.doc[c.section] else map[]
  }

  function Put(c: Cursor, k: string, v: string): Cursor {
    Cursor(c.doc[c.section := Current(c)[k := v]], c.section)
  }

  /** One line of input. */
  function ParseLine(c: Cursor, line: string, n: nat): Result<Cursor, ParseError> {
    var raw := Trim(line);
    if IsSkipped(raw) then Ok(c)
    else if IsHeader(raw) then
      var s := ToLower(Trim(raw[1..|raw| - 1]));
      if s == "" then Err(EmptySection(n)) else Ok(Open(c, s))
    else
      var i := IndexOf(raw, '=');
      if i == |raw| then Err(MissingEquals(n))
      else
        var k := ToLower(Trim(raw[..i]));
        if k == "" then Err(EmptyKey(n)) else Ok(Put(c, k, Trim(raw[i + 1..])))
  }

  type Step = (Cursor, string, nat) -> Result<Cursor, ParseError>

  /** The scanning loop as a fold of `step` over the lines, numbered from `n`, with a scanner that
      delivers lines of up to `limit` characters. */
  function Run(step: Step, limit: nat, c: Cursor, lines: seq<string>, n: nat): Result<Cursor, ParseError>
    decreases |lines|
  {
    if lines == [] then Ok(c)
    else if |lines[0]| > limit then Err(LineTooLong)
    else
      match step(c, lines[0], n)
      case Err(e) => Err(e)
      case Ok(c') => Run(step, limit, c', lines[1..], n + 1)
  }

  function ParseWithin(limit: nat, content: string): Result<Document, ParseError> {
    match Run(ParseLine, limit, START, Split(content, '\n'), 1)
    case Err(e) => Err(e)
    case Ok(c) => Ok(c.doc)
  }

  function Parse(content: string): Result<Document, ParseError> {
    ParseWithin(MAX_LINE, content)
  }

  /** `parseINI`: the scanning loop. */
  method ParseINI(content: string) returns (r: Result<Document, ParseError>)
    ensures r == Parse(content)
  {
    var lines := Split(content, '\n');
    var c := START;
    var i := 0;
    while i < |lines|
      invariant 0 <= i <= |lines|
      invariant Run(ParseLine, MAX_LINE, START, lines, 1) == Run(ParseLine, MAX_LINE, c, lines[i..], i + 1)
    {
      if |lines[i]| > MAX_LINE {
        return Err(LineTooLong);
      }
      match ParseLine(c, lines[i], i + 1)
      case Err(e) =>
        return Err(e);
      case Ok(next) =>
        c := next;
        assert lines[i..][1..] == lines[i + 1..];
        i := i + 1;
    }
    return Ok(c.doc);
  }

  // ---- the documents the parser can return -------------------------------

  predicate SectionName(s: string) {
    s != "" && Trimmed(s) && ToLower(s) == s && '\n' !in s && |s| + 2 <= MAX_LINE
  }

  predicate Pair(k: string, v: string) {
    && k != "" && Trimmed(k) && ToLower(k) == k && '\n' !in k && '=' !in k
    && k[0] != '#' && k[0] != ';'
    && Trimmed(v) && '\n' !in v
    && !(k[0] == '[' && v != "" && v[|v| - 1] == ']')
    && |k| + 1 + |v| <= MAX_LINE
  }

  ghost predicate SectionOk(m: Section) {
    forall k :: k in m ==> Pair(k, m[k])
  }

  /** Exactly the documents that `parseINI` returns (`ParseWellFormed`, `WellFormedReachable`). */
  ghost predicate WellFormed(d: Document) {
    "edge" in d && forall s :: s in d ==> SectionName(s) && SectionOk(d[s])
  }

  lemma LowerFirst(c: char)
    ensures LowerChar(c) == '#' <==> c == '#'
    ensures LowerChar(c) == ';' <==> c == ';'
    ensures LowerChar(c) == '[' <==> c == '['
    ensures LowerChar(c) == '=' <==> c == '='
    ensures LowerChar(c) == '\n' <==> c == '\n'
  {
  }

  lemma LowerChars(s: string)
    ensures '=' in ToLower(s) ==> '=' in s
    ensures '\n' in ToLower(s) ==> '\n' in s
  {
    forall c | c in ToLower(s) && (c == '=' || c == '\n') ensures c in s {
      var i :| 0 <= i < |s| && ToLower(s)[i] == c;
      LowerFirst(s[i]);
      assert s[i] == c;
    }
  }

  lemma TrimFirst(s: string)
    requires s != "" && !IsSpace(s[0])
    ensures Trim(s) != "" && Trim(s)[0] == s[0]
  {
    TrimRightTrims(s);
    assert TrimLeft(s) == s;
    TrimRightKeepsFirst(s);
  }

  lemma TrimRightKeepsFirst(s: string)
    requires s != "" && !IsSpace(s[0])
    ensures TrimRight(s) != "" && TrimRight(s)[0] == s[0]
  {
  }

  lemma TrimLast(s: string)
    requires Trim(s) != "" && s != "" && !IsSpace(s[|s| - 1])
    ensures Trim(s)[|Trim(s)| - 1] == s[|s| - 1]
  {
    TrimLeftTrims(s);
  }

  lemma ParseLineKeyPair(line: string, raw: string, i: nat)
    requires raw == Trim(line) && '\n' !in line && |line| <= MAX_LINE
    requires !IsSkipped(raw) && !IsHeader(raw) && i == IndexOf(raw, '=') < |raw|
    requires Trim(raw[..i]) != ""
    ensures Pair(ToLower(Trim(raw[..i])), Trim(raw[i + 1..]))
  {
    TrimTrims(line);
    var left, right := raw[..i], raw[i + 1..];
    var k, v := ToLower(Trim(left)), Trim(right);
    TrimTrims(left);
    TrimTrims(right);
    LowerIdempotent(Trim(left));
    LowerKeepsTrimmed(Trim(left));
    LowerChars(Trim(left));
    assert '=' !in left;
    assert i > 0;
    TrimFirst(left);
    LowerFirst(left[0]);
    assert left[0] == raw[0];
    if k[0] == '[' && v != "" {
      assert right != "" && right[|right| - 1] == raw[|raw| - 1];
      TrimLast(right);
    }
  }

  lemma ParseLineHeaderName(line: string, raw: string)
    requires raw == Trim(line) && '\n' !in line && |line| <= MAX_LINE && IsHeader(raw)
    ensures var s := ToLower(Trim(raw[1..|raw| - 1])); s != "" ==> SectionName(s)
  {
    TrimTrims(line);
    var inner := raw[1..|raw| - 1];
    TrimTrims(inner);
    LowerIdempotent(Trim(inner));
    LowerKeepsTrimmed(Trim(inner));
    LowerChars(Trim(inner));
  }

  lemma ParseLineWellFormed(c: Cursor, line: string, n: nat)
    requires WellFormed(c.doc) && c.section in c.doc && '\n' !in line && |line| <= MAX_LINE
    ensures var r := ParseLine(c, line, n); r.Ok? ==> WellFormed(r.value.doc) && r.value.section in r.value.doc
  {
    var raw := Trim(line);
    if !IsSkipped(raw) {
      if IsHeader(raw) {
        ParseLineHeaderName(line, raw);
      } else {
        var i := IndexOf(raw, '=');
        if i < |raw| && Trim(raw[..i]) != "" {
          ParseLineKeyPair(line, raw, i);
        }
      }
    }
  }

  lemma {:induction false} ParseLinesWellFormed(c: Cursor, lines: seq<string>, n: nat)
    requires WellFormed(c.doc) && c.section in c.doc
    requires forall l :: l in lines ==> '\n' !in l
    ensures var r := Run(ParseLine, MAX_LINE, c, lines, n); r.Ok? ==> WellFormed(r.value.doc)
    decreases |lines|
  {
    if lines != [] && |lines[0]| <= MAX_LINE {
      ParseLineWellFormed(c, lines[0], n);
      match ParseLine(c, lines[0], n)
      case Err(_) =>
      case Ok(next) => ParseLinesWellFormed(next, lines[1..], n + 1);
    }
  }

  /** Every document the parser returns is well formed. */
  lemma ParseWellFormed(content: string)
    ensures Parse(content).Ok? ==> WellFormed(Parse(content).value)
  {
    ParseLinesWellFormed(START, Split(content, '\n'), 1);
  }

  // ---- printing ----------------------------------------------------------

  /** One `key = value` line; `pad` is the blank the printer puts around the sign. */
  function KeyLine(k: string, v: string, pad: string): string {
    k + pad + "=" + pad + v
  }

  function KeyLines(keys: seq<string>, m: Section, pad: string): (r: seq<string>)
    requires forall k :: k in keys ==> k in m
    ensures |r| == |keys|
    ensures forall i :: 0 <= i < |keys| ==> r[i] == KeyLine(keys[i], m[keys[i]], pad)
  {
    seq(|keys|, i requires 0 <= i < |keys| => KeyLine(keys[i], m[keys[i]], pad))
  }

  function Block(s: string, keys: seq<string>, m: Section, pad: string): seq<string>
    requires forall k :: k in keys ==> k in m
  {
    ["[" + s + "]"] + KeyLines(keys, m, pad) + [""]
  }

  /** Any choice of key order, given per section. */
  type KeyOrders = map<string, seq<string>>

  ghost predicate Covers(orders: KeyOrders, d: Document) {
    orders.Keys == d.Keys && forall s :: s in d ==> Elements(orders[s]) == d[s].Keys
  }

  ghost function Blocks(order: seq<string>, orders: KeyOrders, d: Document, pad: string): seq<string>
    requires Covers(orders, d) && forall s :: s in order ==> s in d
  {
    if order == [] then [] else
      BlockOf(order[0], orders, d, pad) + Blocks(order[1..], orders, d, pad)
  }

  ghost function BlockOf(s: string, orders: KeyOrders, d: Document, pad: string): seq<string>
    requires Covers(orders, d) && s in d
  {
    assert forall k :: k in orders[s] ==> k in Elements(orders[s]);
    Block(s, orders[s], d[s], pad)
  }

  // ---- reading back what was printed -------------------------------------

  predicate IsComment(line: string) { line == "" || line[0] == '#' }

  /** A blank or comment line the scanner can deliver. */
  predicate HeaderLine(line: string) {
    IsComment(line) && |line| <= MAX_LINE && '\n' !in line
  }

  predicate IsPad(pad: string) { pad == "" || pad == " " }

  predicate PairFits(limit: nat, k: string, v: string, pad: string) {
    |KeyLine(k, v, pad)| <= limit
  }

  lemma TrimKeyLine(k: string, v: string, pad: string)
    requires Pair(k, v) && IsPad(pad)
    ensures Trim(KeyLine(k, v, pad)) == if v == "" then k + pad + "=" else KeyLine(k, v, pad)
  {
    var line := KeyLine(k, v, pad);
    if v == "" {
      var cut := k + pad + "=";
      assert Trimmed(cut);
      TrimIdentity(cut);
      if pad == " " {
        TrimLeftAppend(cut);
        assert line == cut + " ";
      } else {
        assert line == cut;
      }
    } else {
      assert line[|line| - 1] == v[|v| - 1];
      TrimIdentity(line);
    }
  }

  lemma TrimPadded(s: string, pad: string)
    requires Trimmed(s) && IsPad(pad)
    ensures Trim(pad + s) == s
    ensures s != "" ==> Trim(s + pad) == s
  {
    TrimIdentity(s);
    if pad == "" {
      assert pad + s == s && s + pad == s;
    } else {
      TrimLeftSpace(s);
      if s != "" { TrimLeftAppend(s); }
    }
  }

  lemma ParsePairText(c: Cursor, line: string, left: string, rest: string, n: nat)
    requires Trim(line) == left + ['='] + rest && '=' !in left
    requires !IsSkipped(Trim(line)) && !IsHeader(Trim(line)) && Trim(left) != ""
    ensures ParseLine(c, line, n) == Ok(Put(c, ToLower(Trim(left)), Trim(rest)))
  {
    hide Trim, Put;
    var raw := Trim(line);
    IndexOfAt(left, '=', rest);
    assert raw[..|left|] == left && raw[|left| + 1..] == rest;
  }

  lemma ParseKeyLine(c: Cursor, k: string, v: string, pad: string, n: nat)
    requires Pair(k, v) && IsPad(pad)
    ensures ParseLine(c, KeyLine(k, v, pad), n) == Ok(Put(c, k, v))
  {
    hide Trim, Put, ParseLine;
    var raw := Trim(KeyLine(k, v, pad));
    TrimKeyLine(k, v, pad);
    var rest := if v == "" then "" else pad + v;
    assert raw == (k + pad) + ['='] + rest;
    assert raw[0] == k[0];
    assert v != "" ==> raw[|raw| - 1] == v[|v| - 1];
    TrimPadded(k, pad);
    TrimPadded(v, pad);
    assert Trim(rest) == v by { TrimIdentity(""); }
    ParsePairText(c, KeyLine(k, v, pad), k + pad, rest, n);
  }

  lemma ParseHeaderLine(c: Cursor, s: string, n: nat)
    requires SectionName(s)
    ensures ParseLine(c, "[" + s + "]", n) == Ok(Open(c, s))
  {
    var line := "[" + s + "]";
    TrimIdentity(line);
    assert line[1..|line| - 1] == s;
    TrimIdentity(s);
  }

  // The following lemmas hold for any line reader that handles these three kinds of line.
  ghost predicate Reader(step: Step) {
    && (forall c, s, n :: SectionName(s) ==> step(c, "[" + s + "]", n) == Ok(Open(c, s)))
    && (forall c, k, v, pad, n :: Pair(k, v) && IsPad(pad) ==> step(c, KeyLine(k, v, pad), n) == Ok(Put(c, k, v)))
    && (forall c, l, n :: IsComment(l) ==> step(c, l, n) == Ok(c))
  }

  lemma ParseLineReads()
    ensures Reader(ParseLine)
  {
    forall c, s, n | SectionName(s) ensures ParseLine(c, "[" + s + "]", n) == Ok(Open(c, s)) {
      ParseHeaderLine(c, s, n);
    }
    forall c, k, v, pad, n | Pair(k, v) && IsPad(pad)
      ensures ParseLine(c, KeyLine(k, v, pad), n) == Ok(Put(c, k, v))
    {
      ParseKeyLine(c, k, v, pad, n);
    }
    forall c, l, n | IsComment(l) ensures ParseLine(c, l, n) == Ok(c) {
      if l != "" { TrimFirst(l); }
    }
  }

  lemma {:induction false} RunAppend(step: Step, limit: nat, c: Cursor, a: seq<string>, b: seq<string>, n: nat)
    ensures Run(step, limit, c, a + b, n) ==
            match Run(step, limit, c, a, n)
            case Err(e) => Err(e)
            case Ok(c') => Run(step, limit, c', b, n + |a|)
    decreases |a|
  {
    if a == [] {
      assert a + b == b;
    } else {
      assert (a + b)[1..] == a[1..] + b;
      match step(c, a[0], n)
      case Err(_) =>
      case Ok(next) => RunAppend(step, limit, next, a[1..], b, n + 1);
    }
  }

  ghost function Restrict(m: Section, keys: seq<string>): Section {
    map k | k in m && k in keys :: m[k]
  }

  lemma {:induction false} RunKeyLines(step: Step, limit: nat, c: Cursor, keys: seq<string>, m: Section, pad: string,
                                       n: nat)
    requires Reader(step) && c.section in c.doc && SectionOk(m) && IsPad(pad)
    requires forall k :: k in keys ==> k in m && PairFits(limit, k, m[k], pad)
    ensures Run(step, limit, c, KeyLines(keys, m, pad), n)
         == Ok(Cursor(c.doc[c.section := Current(c) + Restrict(m, keys)], c.section))
    decreases |keys|
  {
    var was := Current(c);
    if keys == [] {
      assert was + Restrict(m, keys) == was;
      assert c.doc[c.section := was] == c.doc;
    } else {
      var k := keys[0];
      var next := Put(c, k, m[k]);
      RunKeyLines(step, limit, next, keys[1..], m, pad, n + 1);
      assert KeyLines(keys, m, pad)[1..] == KeyLines(keys[1..], m, pad);
      RestrictCons(was, m, keys);
      assert next.doc[c.section := was + Restrict(m, keys)] == c.doc[c.section := was + Restrict(m, keys)];
    }
  }

  lemma RestrictCons(was: Section, m: Section, keys: seq<string>)
    requires keys != [] && keys[0] in m
    ensures was[keys[0] := m[keys[0]]] + Restrict(m, keys[1..]) == was + Restrict(m, keys)
  {
    assert forall k :: k in keys <==> k == keys[0] || k in keys[1..];
  }

  lemma EnteredDoc(c: Cursor, s: string, keys: seq<string>, m: Section)
    requires Elements(keys) == m.Keys
    requires s in c.doc ==> c.doc[s] == map[] || c.doc[s] == m
    ensures Current(Open(c, s)) + Restrict(m, keys) == m
    ensures Open(c, s).doc[s := m] == c.doc[s := m]
  {
    assert forall k :: k in keys <==> k in Elements(keys);
    assert Restrict(m, keys) == m;
  }

  /** A printed section adds exactly that section, whether it is absent, still empty or already there. */
  lemma RunBlock(step: Step, limit: nat, c: Cursor, s: string, keys: seq<string>, m: Section, pad: string, n: nat)
    requires MAX_LINE <= limit && Reader(step) && SectionName(s) && SectionOk(m) && IsPad(pad)
        && Elements(keys) == m.Keys
    requires forall k :: k in m ==> PairFits(limit, k, m[k], pad)
    requires s in c.doc ==> c.doc[s] == map[] || c.doc[s] == m
    ensures forall k :: k in keys ==> k in m
    ensures Run(step, limit, c, Block(s, keys, m, pad), n) == Ok(Cursor(c.doc[s := m], s))
  {
    hide Current, Restrict, KeyLine, Pair, SectionOk;
    assert forall k :: k in keys <==> k in Elements(keys);
    var head, body := ["[" + s + "]"], KeyLines(keys, m, pad);
    var entered, done := Open(c, s), Cursor(c.doc[s := m], s);
    assert Run(step, limit, c, head, n) == Ok(entered);
    RunKeyLines(step, limit, entered, keys, m, pad, n + 1);
    EnteredDoc(c, s, keys, m);
    assert Run(step, limit, done, [""], n + 1 + |body|) == Ok(done);
    RunAppend(step, limit, c, head, body, n);
    RunAppend(step, limit, c, head + body, [""], n);
  }

  /** The part of a document already read after the sections `done`: the parser starts with an empty `edge`. */
  ghost function Partial(d: Document, done: set<string>): Document {
    map s | s in d && (s in done || s == "edge") :: if s in done then d[s] else map[]
  }

  ghost predicate Fits(limit: nat, d: Document, pad: string) {
    forall s, k :: s in d && k in d[s] ==> PairFits(limit, k, d[s][k], pad)
  }

  ghost predicate ReadsBlocks(step: Step, limit: nat, orders: KeyOrders, d: Document, pad: string)
    requires Covers(orders, d)
  {
    forall s, c: Cursor, n: nat :: s in d && (s in c.doc ==> c.doc[s] == map[] || c.doc[s] == d[s]) ==>
      Run(step, limit, c, BlockOf(s, orders, d, pad), n) == Ok(Cursor(c.doc[s := d[s]], s))
  }

  lemma ReaderReadsBlocks(step: Step, limit: nat, orders: KeyOrders, d: Document, pad: string)
    requires MAX_LINE <= limit && Reader(step) && WellFormed(d) && Covers(orders, d) && IsPad(pad)
        && Fits(limit, d, pad)
    ensures ReadsBlocks(step, limit, orders, d, pad)
  {
    forall s, c: Cursor, n: nat | s in d && (s in c.doc ==> c.doc[s] == map[] || c.doc[s] == d[s])
      ensures Run(step, limit, c, BlockOf(s, orders, d, pad), n) == Ok(Cursor(c.doc[s := d[s]], s))
    {
      RunBlock(step, limit, c, s, orders[s], d[s], pad, n);
    }
  }

  lemma {:induction false} RunBlocks(step: Step, limit: nat, c: Cursor, order: seq<string>, orders: KeyOrders,
                                     d: Document,
                                     pad: string, done: set<string>, n: nat)
    requires Covers(orders, d) && ReadsBlocks(step, limit, orders, d, pad)
    requires forall s :: s in order ==> s in d
    requires c.doc == Partial(d, done)
    ensures var r := Run(step, limit, c, Blocks(order, orders, d, pad), n);
            r.Ok? && r.value.doc == Partial(d, done + Elements(order))
    decreases |order|
  {
    if order == [] {
      assert done + Elements(order) == done;
    } else {
      var s := order[0];
      PartialStep(d, done, s);
      var next := Cursor(c.doc[s := d[s]], s);
      var block, rest := BlockOf(s, orders, d, pad), Blocks(order[1..], orders, d, pad);
      RunBlocks(step, limit, next, order[1..], orders, d, pad, done + {s}, n + |block|);
      assert done + {s} + Elements(order[1..]) == done + Elements(order) by { ElementsCons(order); }
      Chain(step, limit, c, block, rest, n, next, Partial(d, done + Elements(order)));
      assert Blocks(order, orders, d, pad) == block + rest;
    }
  }

  lemma Chain(step: Step, limit: nat, c: Cursor, a: seq<string>, b: seq<string>, n: nat, next: Cursor, doc: Document)
    requires Run(step, limit, c, a, n) == Ok(next)
    requires var r := Run(step, limit, next, b, n + |a|); r.Ok? && r.value.doc == doc
    ensures var r := Run(step, limit, c, a + b, n); r.Ok? && r.value.doc == doc
  {
    RunAppend(step, limit, c, a, b, n);
  }

  lemma PartialStep(d: Document, done: set<string>, s: string)
    requires s in d
    ensures Partial(d, done)[s := d[s]] == Partial(d, done + {s})
    ensures s in Partial(d, done) ==> Partial(d, done)[s] == map[] || Partial(d, done)[s] == d[s]
  {
  }

  lemma PartialEnds(d: Document)
    requires "edge" in d
    ensures Partial(d, {}) == START.doc && Partial(d, d.Keys) == d
  {
  }

  lemma ElementsCons(q: seq<string>)
    requires q != []
    ensures Elements(q) == {q[0]} + Elements(q[1..])
  {
    assert q == [q[0]] + q[1..];
  }

  /** No line break inside a name, a key or a value. */
  ghost predicate Clean(d: Document) {
    forall s :: s in d ==> '\n' !in s && CleanSection(d[s])
  }

  ghost predicate CleanSection(m: Section) {
    forall k :: k in m ==> '\n' !in k && '\n' !in m[k]
  }

  lemma WellFormedClean(d: Document)
    requires WellFormed(d)
    ensures Clean(d)
  {
    forall s, k | s in d && k in d[s] ensures '\n' !in k && '\n' !in d[s][k] {
      assert Pair(k, d[s][k]);
    }
  }

  lemma BlockLinesClean(s: string, keys: seq<string>, m: Section, pad: string)
    requires '\n' !in s && CleanSection(m) && IsPad(pad) && forall k :: k in keys ==> k in m
    ensures forall l :: l in Block(s, keys, m, pad) ==> '\n' !in l
  {
    forall i | 0 <= i < |keys| ensures '\n' !in KeyLines(keys, m, pad)[i] {
      assert keys[i] in m;
    }
  }

  lemma {:induction false} BlocksLinesClean(order: seq<string>, orders: KeyOrders, d: Document, pad: string)
    requires Clean(d) && Covers(orders, d) && IsPad(pad)
    requires forall s :: s in order ==> s in d
    ensures forall l :: l in Blocks(order, orders, d, pad) ==> '\n' !in l
  {
    if order != [] {
      var s := order[0];
      assert forall k :: k in orders[s] ==> k in Elements(orders[s]);
      BlockLinesClean(s, orders[s], d[s], pad);
      BlocksLinesClean(order[1..], orders, d, pad);
    }
  }

  lemma {:induction false} RunComments(step: Step, limit: nat, c: Cursor, lines: seq<string>, n: nat)
    requires Reader(step) && forall l :: l in lines ==> IsComment(l) && |l| <= limit
    ensures Run(step, limit, c, lines, n) == Ok(c)
    decreases |lines|
  {
    if lines != [] {
      RunComments(step, limit, c, lines[1..], n + 1);
    }
  }

  lemma ReadBackLines(step: Step, limit: nat, header: seq<string>, order: seq<string>, orders: KeyOrders, d: Document,
                      pad: string)
    requires MAX_LINE <= limit && Reader(step) && WellFormed(d) && Covers(orders, d) && IsPad(pad)
        && Fits(limit, d, pad)
    requires forall i :: 0 <= i < |header| ==> HeaderLine(header[i])
    requires Elements(order) == d.Keys && forall s :: s in order ==> s in d
    ensures var r := Run(step, limit, START, header + Blocks(order, orders, d, pad) + [""], 1);
            r.Ok? && r.value.doc == d
  {
    hide Run, Blocks, Reader, SectionOk, SectionName, Fits, Covers, Partial;
    var body := Blocks(order, orders, d, pad);
    RunComments(step, limit, START, header, 1);
    PartialEnds(d);
    ReaderReadsBlocks(step, limit, orders, d, pad);
    RunBlocks(step, limit, START, order, orders, d, pad, {}, 1 + |header|);
    assert {} + Elements(order) == d.Keys;
    RunAppend(step, limit, START, header, body, 1);
    RunAppend(step, limit, START, header + body, [""], 1);
    RunComments(step, limit, Run(step, limit, START, header + body, 1).value, [""], 1 + |header + body|);
  }

  /** Whatever order sections and keys are printed in, the parser rebuilds the document, with any
      scanner that takes the printed lines. */
  lemma ReadBack(limit: nat, header: seq<string>, order: seq<string>, orders: KeyOrders, d: Document, pad: string)
    requires MAX_LINE <= limit && WellFormed(d) && Covers(orders, d) && IsPad(pad) && Fits(limit, d, pad)
    requires forall i :: 0 <= i < |header| ==> HeaderLine(header[i])
    requires Elements(order) == d.Keys
    ensures forall s :: s in order ==> s in d
    ensures ParseWithin(limit, Unlines(header + Blocks(order, orders, d, pad))) == Ok(d)
  {
    assert forall s :: s in order <==> s in Elements(order);
    WellFormedClean(d);
    BlocksLinesClean(order, orders, d, pad);
    SplitUnlines(header + Blocks(order, orders, d, pad));
    ParseLineReads();
    ReadBackLines(ParseLine, limit, header, order, orders, d, pad);
  }

  /** Well-formed documents are exactly the ones some text parses to. */
  lemma WellFormedReachable(d: Document)
    ensures WellFormed(d) <==> exists content :: Parse(content) == Ok(d)
  {
    hide ParseWithin, WellFormed;
    if WellFormed(d) {
      var content := PlainText(d);
    }
    if content :| Parse(content) == Ok(d) {
      ParseWellFormed(content);
    }
  }

  /** A text for a document: everything sorted, no blanks around the signs. */
  lemma PlainText(d: Document) returns (content: string)
    requires WellFormed(d)
    ensures Parse(content) == Ok(d)
  {
    hide ParseWithin, Blocks, SectionName, Sorted;
    var orders: KeyOrders := map s | s in d :: Sorted(d[s].Keys);
    var order := Sorted(d.Keys);
    SortedSorts(d.Keys);
    forall s | s in d ensures Elements(orders[s]) == d[s].Keys { SortedSorts(d[s].Keys); }
    forall s, k | s in d && k in d[s] ensures PairFits(MAX_LINE, k, d[s][k], "") {
      assert Pair(k, d[s][k]);
    }
    ReadBack(MAX_LINE, [], order, orders, d, "");
    content := Unlines([] + Blocks(order, orders, d, ""));
  }

  lemma {:induction false} LongLineFails(step: Step, limit: nat, c: Cursor, lines: seq<string>, n: nat, i: nat)
    requires i < |lines| && |lines[i]| > limit
    ensures Run(step, limit, c, lines, n).Err?
    decreases i
  {
    if i > 0 && |lines[0]| <= limit {
      match step(c, lines[0], n)
      case Err(_) =>
      case Ok(next) => LongLineFails(step, limit, next, lines[1..], n + 1, i - 1);
    }
  }
}
