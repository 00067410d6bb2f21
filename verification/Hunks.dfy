/**
 The line diff of internal/render/diff.go: computeHunks turns the opcodes of difflib's
 matcher into numbered lines.  The matcher is library code; its contract is `Tiles` and
 `Exact`.
 */
module Hunks {
  import opened Wrappers
  import opened Text
  import opened Indices

  datatype Tag = Equal | Delete | Insert | Replace

  /** Lines i1..i2 of the desired text against lines j1..j2 of the live text. */
  datatype OpCode = OpCode(tag: Tag, i1: nat, i2: nat, j1: nat, j2: nat)

  datatype Kind = Context | Del | Add

  datatype Line = Line(kind: Kind, desiredLn: Option<nat>, liveLn: Option<nat>, text: string)

  /** strings.Split(strings.TrimRight(text, "\n"), "\n"). */
  function Lines(text: string): seq<string> {
    Split(TrimNewlines(text), "\n")
  }

  // ---------- the matcher's contract ----------

  ghost predicate WellTagged(op: OpCode, d: seq<string>, l: seq<string>) {
    && op.i1 <= op.i2 <= |d| && op.j1 <= op.j2 <= |l|
    && match op.tag
       case Equal => d[op.i1..op.i2] == l[op.j1..op.j2]
       case Delete => op.i1 < op.i2 && op.j1 == op.j2
       case Insert => op.i1 == op.i2 && op.j1 < op.j2
       case Replace => op.i1 < op.i2 && op.j1 < op.j2
  }

  /** The opcodes cover both texts from lines `i` and `j` on, without gap or overlap. */
  ghost predicate TilesFrom(ops: seq<OpCode>, d: seq<string>, l: seq<string>, i: nat, j: nat) {
    if ops == [] then i == |d| && j == |l|
    else
      && ops[0].i1 == i && ops[0].j1 == j
      && WellTagged(ops[0], d, l)
      && TilesFrom(ops[1..], d, l, ops[0].i2, ops[0].j2)
  }

  ghost predicate Tiles(ops: seq<OpCode>, d: seq<string>, l: seq<string>) {
    TilesFrom(ops, d, l, 0, 0)
  }

  /** Equal texts are matched as equal. */
  ghost predicate Exact(ops: seq<OpCode>, d: seq<string>, l: seq<string>) {
    d == l ==> forall op | op in ops :: op.tag == Equal
  }

  // ---------- the lines ----------

  function ContextLines(op: OpCode, d: seq<string>): seq<Line>
    requires op.i1 <= op.i2 <= |d|
  {
    seq(op.i2 - op.i1, k requires 0 <= k < op.i2 - op.i1 =>
      Line(Context, Some(op.i1 + k + 1), Some(op.j1 + k + 1), d[op.i1 + k]))
  }

  function DelLines(op: OpCode, d: seq<string>): seq<Line>
    requires op.i1 <= op.i2 <= |d|
  {
    seq(op.i2 - op.i1, k requires 0 <= k < op.i2 - op.i1 => Line(Del, Some(op.i1 + k + 1), None, d[op.i1 + k]))
  }

  function AddLines(op: OpCode, l: seq<string>): seq<Line>
    requires op.j1 <= op.j2 <= |l|
  {
    seq(op.j2 - op.j1, k requires 0 <= k < op.j2 - op.j1 => Line(Add, None, Some(op.j1 + k + 1), l[op.j1 + k]))
  }

  function OpLines(op: OpCode, d: seq<string>, l: seq<string>): seq<Line>
    requires op.i1 <= op.i2 <= |d| && op.j1 <= op.j2 <= |l|
  {
    match op.tag
    case Equal => ContextLines(op, d)
    case Delete => DelLines(op, d)
    case Insert => AddLines(op, l)
    case Replace => DelLines(op, d) + AddLines(op, l)
  }

  predicate InBounds(ops: seq<OpCode>, d: seq<string>, l: seq<string>) {
    forall op | op in ops :: op.i1 <= op.i2 <= |d| && op.j1 <= op.j2 <= |l|
  }

  function HunkLines(ops: seq<OpCode>, d: seq<string>, l: seq<string>): seq<Line>
    requires InBounds(ops, d, l)
  {
    if ops == [] then [] else OpLines(ops[0], d, l) + HunkLines(ops[1..], d, l)
  }

  lemma {:induction false} TilesInBounds(ops: seq<OpCode>, d: seq<string>, l: seq<string>, i: nat, j: nat)
    requires TilesFrom(ops, d, l, i, j)
    ensures InBounds(ops, d, l) && i <= |d| && j <= |l|
  {
    if ops != [] {
      TilesInBounds(ops[1..], d, l, ops[0].i2, ops[0].j2);
    }
  }

  lemma BoundsAppend(ops: seq<OpCode>, op: OpCode, d: seq<string>, l: seq<string>)
    ensures InBounds(ops + [op], d, l) <==> InBounds(ops, d, l) && InBounds([op], d, l)
  {
    assert forall o :: o in ops + [op] <==> o in ops || o in [op];
  }

  lemma HunkLinesCons(op: OpCode, ops: seq<OpCode>, d: seq<string>, l: seq<string>)
    requires InBounds([op] + ops, d, l)
    ensures op in [op] + ops && InBounds(ops, d, l)
    ensures HunkLines([op] + ops, d, l) == OpLines(op, d, l) + HunkLines(ops, d, l)
  {
    assert op == ([op] + ops)[0] && ([op] + ops)[1..] == ops;
  }

  lemma {:induction false} HunkLinesAppend(ops: seq<OpCode>, op: OpCode, d: seq<string>, l: seq<string>)
    requires InBounds(ops, d, l) && InBounds([op], d, l) && InBounds(ops + [op], d, l)
    ensures op in [op] && HunkLines(ops + [op], d, l) == HunkLines(ops, d, l) + OpLines(op, d, l)
  {
    assert op in [op];
    if ops != [] {
      var first, rest := ops[0], ops[1..];
      assert ops == [first] + rest && ops + [op] == [first] + (rest + [op]);
      BoundsAppend(rest, op, d, l);
      HunkLinesCons(first, rest, d, l);
      HunkLinesCons(first, rest + [op], d, l);
      HunkLinesAppend(rest, op, d, l);
      Regroup(OpLines(first, d, l), HunkLines(rest, d, l), OpLines(op, d, l));
    } else {
      HunkLinesCons(op, [], d, l);
      assert [] + [op] == [op] + [];
    }
  }

  /** A replaced block shows its deleted lines before its added ones. */
  lemma DeletedBeforeAdded(op: OpCode, d: seq<string>, l: seq<string>, i: nat, j: nat)
    requires op.i1 <= op.i2 <= |d| && op.j1 <= op.j2 <= |l|
    requires i < j < |OpLines(op, d, l)| && OpLines(op, d, l)[i].kind == Add
    ensures OpLines(op, d, l)[j].kind == Add
  {
    if op.tag == Replace {
      assert forall k | 0 <= k < op.i2 - op.i1 :: OpLines(op, d, l)[k] == DelLines(op, d)[k];
    }
  }

  /** One turn of the loop over the opcodes. */
  lemma NextOp(ops: seq<OpCode>, n: nat, d: seq<string>, l: seq<string>)
    requires InBounds(ops, d, l) && n < |ops|
    ensures ops[n].i1 <= ops[n].i2 <= |d| && ops[n].j1 <= ops[n].j2 <= |l|
    ensures InBounds(ops[..n], d, l) && InBounds(ops[..n + 1], d, l)
    ensures HunkLines(ops[..n + 1], d, l) == HunkLines(ops[..n], d, l) + OpLines(ops[n], d, l)
  {
    var op := ops[n];
    assert op in ops && ops[..n + 1] == ops[..n] + [op];
    BoundsAppend(ops[..n], op, d, l);
    HunkLinesAppend(ops[..n], op, d, l);
  }

  /** The one hunk of computeHunks, for the opcodes the matcher returned. */
  method ComputeHunks(desired: string, live: string, ops: seq<OpCode>) returns (lines: seq<Line>)
    requires InBounds(ops, Lines(desired), Lines(live))
    ensures lines == HunkLines(ops, Lines(desired), Lines(live))
  {
    var d, l := Lines(desired), Lines(live);
    lines := [];
    for n := 0 to |ops|
      invariant InBounds(ops[..n], d, l) && lines == HunkLines(ops[..n], d, l)
    {
      NextOp(ops, n, d, l);
      lines := AppendOp(lines, ops[n], d, l);
    }
    assert ops[..|ops|] == ops;
  }

  /** The switch over an opcode's tag. */
  method AppendOp(lines: seq<Line>, op: OpCode, d: seq<string>, l: seq<string>) returns (out: seq<Line>)
    requires op.i1 <= op.i2 <= |d| && op.j1 <= op.j2 <= |l|
    ensures out == lines + OpLines(op, d, l)
  {
    match op.tag {
      case Equal => out := AppendEqual(lines, op, d);
      case Delete => out := AppendDeleted(lines, op, d);
      case Insert => out := AppendInserted(lines, op, l);
      case Replace =>
        out := AppendDeleted(lines, op, d);
        out := AppendInserted(out, op, l);
    }
  }

  method AppendEqual(lines: seq<Line>, op: OpCode, d: seq<string>) returns (out: seq<Line>)
    requires op.i1 <= op.i2 <= |d|
    ensures out == lines + ContextLines(op, d)
  {
    out := lines;
    for k := op.i1 to op.i2
      invariant out == lines + ContextLines(op, d)[..k - op.i1]
    {
      out := out + [Line(Context, Some(k + 1), Some(op.j1 + (k - op.i1) + 1), d[k])];
    }
  }

  method AppendDeleted(lines: seq<Line>, op: OpCode, d: seq<string>) returns (out: seq<Line>)
    requires op.i1 <= op.i2 <= |d|
    ensures out == lines + DelLines(op, d)
  {
    out := lines;
    for k := op.i1 to op.i2
      invariant out == lines + DelLines(op, d)[..k - op.i1]
    {
      out := out + [Line(Del, Some(k + 1), None, d[k])];
    }
  }

  method AppendInserted(lines: seq<Line>, op: OpCode, l: seq<string>) returns (out: seq<Line>)
    requires op.j1 <= op.j2 <= |l|
    ensures out == lines + AddLines(op, l)
  {
    out := lines;
    for k := op.j1 to op.j2
      invariant out == lines + AddLines(op, l)[..k - op.j1]
    {
      out := out + [Line(Add, None, Some(k + 1), l[k])];
    }
  }

  // ---------- what the lines say ----------

  function DesiredOf(x: Line): seq<(Option<nat>, string)> {
    if x.kind != Add then [(x.desiredLn, x.text)] else []
  }

  function LiveOf(x: Line): seq<(Option<nat>, string)> {
    if x.kind != Del then [(x.liveLn, x.text)] else []
  }

  /** The desired side of a hunk: line numbers and texts of its context and del lines. */
  function DesiredSide(lines: seq<Line>): seq<(Option<nat>, string)> {
    if lines == [] then [] else DesiredOf(lines[0]) + DesiredSide(lines[1..])
  }

  /** The live side: line numbers and texts of its context and add lines. */
  function LiveSide(lines: seq<Line>): seq<(Option<nat>, string)> {
    if lines == [] then [] else LiveOf(lines[0]) + LiveSide(lines[1..])
  }

  /** Lines `from+1`, `from+2`, ... of a text, with their numbers. */
  function Numbered(lines: seq<string>, from: nat): seq<(Option<nat>, string)> {
    seq(|lines|, k requires 0 <= k < |lines| => (Some(from + k + 1), lines[k]))
  }

  lemma {:induction false} DesiredAppend(xs: seq<Line>, ys: seq<Line>)
    ensures DesiredSide(xs + ys) == DesiredSide(xs) + DesiredSide(ys)
  {
    if xs == [] {
      assert xs + ys == ys;
    } else {
      var all := xs + ys;
      assert all[0] == xs[0] && all[1..] == xs[1..] + ys;
      DesiredAppend(xs[1..], ys);
    }
  }

  lemma {:induction false} LiveAppend(xs: seq<Line>, ys: seq<Line>)
    ensures LiveSide(xs + ys) == LiveSide(xs) + LiveSide(ys)
  {
    if xs == [] {
      assert xs + ys == ys;
    } else {
      var all := xs + ys;
      assert all[0] == xs[0] && all[1..] == xs[1..] + ys;
      LiveAppend(xs[1..], ys);
    }
  }

  /** A block of lines that all show on a side shows there as it is; one with no such line not at all. */
  lemma {:induction false} DesiredUniform(lines: seq<Line>)
    ensures (forall x | x in lines :: x.kind != Add) ==>
              |DesiredSide(lines)| == |lines|
              && forall k | 0 <= k < |lines| :: DesiredSide(lines)[k] == (lines[k].desiredLn, lines[k].text)
    ensures (forall x | x in lines :: x.kind == Add) ==> DesiredSide(lines) == []
  {
    if lines != [] {
      assert lines[0] in lines;
      DesiredUniform(lines[1..]);
    }
  }

  lemma {:induction false} LiveUniform(lines: seq<Line>)
    ensures (forall x | x in lines :: x.kind != Del) ==>
              |LiveSide(lines)| == |lines|
              && forall k | 0 <= k < |lines| :: LiveSide(lines)[k] == (lines[k].liveLn, lines[k].text)
    ensures (forall x | x in lines :: x.kind == Del) ==> LiveSide(lines) == []
  {
    if lines != [] {
      assert lines[0] in lines;
      LiveUniform(lines[1..]);
    }
  }

  lemma NumberedAppend(xs: seq<string>, ys: seq<string>, from: nat)
    ensures Numbered(xs + ys, from) == Numbered(xs, from) + Numbered(ys, from + |xs|)
  {
  }

  lemma ContextDesired(op: OpCode, d: seq<string>)
    requires op.i1 <= op.i2 <= |d|
    ensures DesiredSide(ContextLines(op, d)) == Numbered(d[op.i1..op.i2], op.i1)
  {
    DesiredUniform(ContextLines(op, d));
  }

  lemma ContextLive(op: OpCode, d: seq<string>, l: seq<string>)
    requires WellTagged(op, d, l) && op.tag == Equal
    ensures LiveSide(ContextLines(op, d)) == Numbered(l[op.j1..op.j2], op.j1)
  {
    LiveUniform(ContextLines(op, d));
    var n := op.i2 - op.i1;
    assert |l[op.j1..op.j2]| == n;
    forall k | 0 <= k < n ensures d[op.i1 + k] == l[op.j1..op.j2][k] {
      assert d[op.i1..op.i2][k] == d[op.i1 + k];
    }
  }

  lemma DelDesired(op: OpCode, d: seq<string>)
    requires op.i1 <= op.i2 <= |d|
    ensures DesiredSide(DelLines(op, d)) == Numbered(d[op.i1..op.i2], op.i1)
  {
    DesiredUniform(DelLines(op, d));
  }

  lemma AddLive(op: OpCode, l: seq<string>)
    requires op.j1 <= op.j2 <= |l|
    ensures LiveSide(AddLines(op, l)) == Numbered(l[op.j1..op.j2], op.j1)
  {
    LiveUniform(AddLines(op, l));
  }

  lemma DelSides(op: OpCode, d: seq<string>)
    requires op.i1 <= op.i2 <= |d|
    ensures DesiredSide(DelLines(op, d)) == Numbered(d[op.i1..op.i2], op.i1)
    ensures LiveSide(DelLines(op, d)) == []
  {
    DelDesired(op, d);
    LiveUniform(DelLines(op, d));
  }

  lemma AddSides(op: OpCode, l: seq<string>)
    requires op.j1 <= op.j2 <= |l|
    ensures DesiredSide(AddLines(op, l)) == []
    ensures LiveSide(AddLines(op, l)) == Numbered(l[op.j1..op.j2], op.j1)
  {
    AddLive(op, l);
    DesiredUniform(AddLines(op, l));
  }

  lemma OpSides(op: OpCode, d: seq<string>, l: seq<string>)
    requires WellTagged(op, d, l)
    ensures DesiredSide(OpLines(op, d, l)) == Numbered(d[op.i1..op.i2], op.i1)
    ensures LiveSide(OpLines(op, d, l)) == Numbered(l[op.j1..op.j2], op.j1)
  {
    match op.tag {
      case Equal =>
        ContextDesired(op, d);
        ContextLive(op, d, l);
      case Delete => DelSides(op, d);
      case Insert => AddSides(op, l);
      case Replace =>
        DelSides(op, d);
        AddSides(op, l);
        DesiredAppend(DelLines(op, d), AddLines(op, l));
        LiveAppend(DelLines(op, d), AddLines(op, l));
    }
  }

  lemma NumberedJoin(text: seq<string>, i: nat, j: nat)
    requires i <= j <= |text|
    ensures Numbered(text[i..j], i) + Numbered(text[j..], j) == Numbered(text[i..], i)
  {
    NumberedAppend(text[i..j], text[j..], i);
    assert text[i..] == text[i..j] + text[j..];
  }

  lemma SidesStep(op: OpCode, rest: seq<Line>, d: seq<string>, l: seq<string>)
    requires WellTagged(op, d, l)
    requires DesiredSide(rest) == Numbered(d[op.i2..], op.i2)
    requires LiveSide(rest) == Numbered(l[op.j2..], op.j2)
    ensures DesiredSide(OpLines(op, d, l) + rest) == Numbered(d[op.i1..], op.i1)
    ensures LiveSide(OpLines(op, d, l) + rest) == Numbered(l[op.j1..], op.j1)
  {
    OpSides(op, d, l);
    DesiredAppend(OpLines(op, d, l), rest);
    LiveAppend(OpLines(op, d, l), rest);
    NumberedJoin(d, op.i1, op.i2);
    NumberedJoin(l, op.j1, op.j2);
  }

  lemma {:induction false} SidesFrom(ops: seq<OpCode>, d: seq<string>, l: seq<string>, i: nat, j: nat)
    requires TilesFrom(ops, d, l, i, j)
    ensures i <= |d| && j <= |l| && InBounds(ops, d, l)
    ensures DesiredSide(HunkLines(ops, d, l)) == Numbered(d[i..], i)
    ensures LiveSide(HunkLines(ops, d, l)) == Numbered(l[j..], j)
  {
    TilesInBounds(ops, d, l, i, j);
    if ops != [] {
      SidesFrom(ops[1..], d, l, ops[0].i2, ops[0].j2);
      SidesStep(ops[0], HunkLines(ops[1..], d, l), d, l);
    }
  }

  function Texts(side: seq<(Option<nat>, string)>): seq<string> {
    seq(|side|, k requires 0 <= k < |side| => side[k].1)
  }

  /**
   Whatever tiling the matcher returns, the context and del lines spell the desired text
   with line numbers 1..n, and the context and add lines spell the live text with 1..m.
   */
  lemma HunkSpellsBothTexts(desired: string, live: string, ops: seq<OpCode>)
    requires Tiles(ops, Lines(desired), Lines(live))
    ensures InBounds(ops, Lines(desired), Lines(live))
    ensures var lines := HunkLines(ops, Lines(desired), Lines(live));
            && DesiredSide(lines) == Numbered(Lines(desired), 0)
            && LiveSide(lines) == Numbered(Lines(live), 0)
            && Join(Texts(DesiredSide(lines)), "\n") == TrimNewlines(desired)
            && Join(Texts(LiveSide(lines)), "\n") == TrimNewlines(live)
  {
    var d, l := Lines(desired), Lines(live);
    SidesFrom(ops, d, l, 0, 0);
    assert d[0..] == d && l[0..] == l;
    assert Texts(Numbered(d, 0)) == d && Texts(Numbered(l, 0)) == l;
    JoinSplit(TrimNewlines(desired), "\n");
    JoinSplit(TrimNewlines(live), "\n");
  }

  lemma {:induction false} AllContextSides(lines: seq<Line>)
    requires forall x | x in lines :: x.kind == Context
    ensures Texts(DesiredSide(lines)) == Texts(LiveSide(lines))
  {
    DesiredUniform(lines);
    LiveUniform(lines);
  }

  lemma {:induction false} OnlyEqualOps(ops: seq<OpCode>, d: seq<string>, l: seq<string>)
    requires InBounds(ops, d, l) && forall op | op in ops :: op.tag == Equal
    ensures forall x | x in HunkLines(ops, d, l) :: x.kind == Context
  {
    if ops != [] {
      OnlyEqualOps(ops[1..], d, l);
    }
  }

  /** With an exact matcher, the hunk has a line that is not context exactly when the trimmed texts differ. */
  lemma ChangeShownExactlyWhenTextsDiffer(desired: string, live: string, ops: seq<OpCode>)
    requires Tiles(ops, Lines(desired), Lines(live)) && Exact(ops, Lines(desired), Lines(live))
    ensures InBounds(ops, Lines(desired), Lines(live))
    ensures (exists x :: x in HunkLines(ops, Lines(desired), Lines(live)) && x.kind != Context)
            <==> TrimNewlines(desired) != TrimNewlines(live)
  {
    var d, l := Lines(desired), Lines(live);
    HunkSpellsBothTexts(desired, live, ops);
    var lines := HunkLines(ops, d, l);
    if forall x | x in lines :: x.kind == Context {
      AllContextSides(lines);
    } else if TrimNewlines(desired) == TrimNewlines(live) {
      OnlyEqualOps(ops, d, l);
      assert false;
    }
  }

  /** Tiling alone does not give that: a replace of a line by itself tiles equal texts. */
  lemma TilingAloneMayShowNoChange()
    ensures var op := OpCode(Replace, 0, 1, 0, 1);
            && Tiles([op], ["a"], ["a"]) && !Exact([op], ["a"], ["a"])
            && InBounds([op], ["a"], ["a"])
            && HunkLines([op], ["a"], ["a"])[0].kind == Del
  {
    var op := OpCode(Replace, 0, 1, 0, 1);
    assert TilesFrom([op][1..], ["a"], ["a"], 1, 1);
    TilesInBounds([op], ["a"], ["a"], 0, 0);
  }

  // ---------- a matcher that meets the contract ----------

  function CommonPrefix(d: seq<string>, l: seq<string>): (p: nat)
    ensures p <= |d| && p <= |l| && d[..p] == l[..p]
    ensures d == l ==> p == |d|
  {
    if d != [] && l != [] && d[0] == l[0] then 1 + CommonPrefix(d[1..], l[1..]) else 0
  }

  /** The contract can be met: match the common prefix and replace the rest. */
  function PrefixOpcodes(d: seq<string>, l: seq<string>): (ops: seq<OpCode>)
    ensures Tiles(ops, d, l) && Exact(ops, d, l)
  {
    var p := CommonPrefix(d, l);
    var head := OpCode(Equal, 0, p, 0, p);
    if p == |d| && p == |l| then
      assert TilesFrom([head][1..], d, l, p, p);
      [head]
    else
      var tail := OpCode(if p == |l| then Delete else if p == |d| then Insert else Replace, p, |d|, p, |l|);
      assert [head, tail][1..] == [tail];
      assert TilesFrom([tail][1..], d, l, |d|, |l|);
      assert TilesFrom([tail], d, l, p, p);
      [head, tail]
  }

  ghost predicate IsMatcher(f: (seq<string>, seq<string>) -> seq<OpCode>) {
    forall d, l :: Tiles(f(d, l), d, l) && Exact(f(d, l), d, l)
  }

  /** A difflib matcher's GetOpCodes: any function that meets the contract. */
  type Matcher = f: (seq<string>, seq<string>) -> seq<OpCode> | IsMatcher(f) witness PrefixOpcodes
}
