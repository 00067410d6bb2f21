/**
 splitYAMLStream and splitYAMLDocuments of internal/render/kustomize.go.  The YAML decoder
 is a parameter.
 */
module YamlStream {
  import opened Wrappers
  import opened Text

  const NL: string := "\n"
  const DASHES: string := "---"

  /** The separator of the source, a line break and three dashes. */
  const SEP: string := NL + DASHES

  // ---------- splitYAMLStream ----------

  function TrimPrefix(s: string, prefix: string): string {
    if prefix <= s then s[|prefix|..] else s
  }

  /** splitYAMLStream: the text after a virtual line break, cut at every separator. */
  method SplitYamlStream(b: string) returns (docs: seq<string>)
    ensures docs == ByLines(b)
  {
    var parts := Split(NL + b, SEP);
    docs := [];
    for i := 0 to |parts|
      invariant |docs| == i
      invariant i > 0 ==> docs == [TrimPrefix(parts[0], NL)] + parts[1..i]
    {
      var p := parts[i];
      if i == 0 {
        p := TrimPrefix(p, NL);
      }
      docs := docs + [p];
    }
    SplitIsByLines(b);
    assert parts[1..|parts|] == parts[1..];
  }

  // ---------- what it means, line by line ----------

  /** `cur` is the text of the current document; a line that starts with dashes starts the next one. */
  function Group(cur: string, lines: seq<string>): (docs: seq<string>)
    ensures docs != []
    decreases |lines|
  {
    if lines == [] then [cur]
    else if DASHES <= lines[0] then [cur] + Group(lines[0][|DASHES|..], lines[1..])
    else Group(cur + NL + lines[0], lines[1..])
  }

  /** The documents of a stream: a line that starts with three dashes, whatever follows, starts the next one. */
  function ByLines(b: string): seq<string> {
    var lines := Split(b, NL);
    if DASHES <= lines[0] then [""] + Group(lines[0][|DASHES|..], lines[1..]) else Group(lines[0], lines[1..])
  }

  /** What follows the first line, with the line break before it. */
  function Tail(lines: seq<string>): string {
    if lines == [] then "" else NL + lines[0] + Tail(lines[1..])
  }

  lemma {:induction false} JoinIsTail(lines: seq<string>)
    requires lines != []
    ensures Join(lines, NL) == lines[0] + Tail(lines[1..])
  {
    if |lines| > 1 {
      JoinIsTail(lines[1..]);
    }
  }

  predicate NoSepBefore(s: string, n: nat) {
    forall i: nat | i < n :: !OccursAt(s, SEP, i)
  }

  lemma SplitHere(cur: string, rest: string)
    requires NoSepBefore(cur + SEP + rest, |cur|)
    ensures Split(cur + SEP + rest, SEP) == [cur] + Split(rest, SEP)
  {
    var s := cur + SEP + rest;
    IndexFinds(s, SEP);
    assert s[|cur|..] == SEP + rest;
    assert OccursAt(s, SEP, |cur|);
    assert Index(s, SEP) == Some(|cur|);
    assert s[..|cur|] == cur && s[|cur| + |SEP|..] == rest;
  }

  lemma SplitNowhere(s: string)
    requires NoSepBefore(s, |s|)
    ensures Split(s, SEP) == [s]
  {
    IndexFinds(s, SEP);
    assert forall i: nat | OccursAt(s, SEP, i) :: i < |s|;
  }

  /** A separator can only start at a line break. */
  lemma SepAtBreak(s: string, i: nat)
    ensures OccursAt(s, SEP, i) ==> i < |s| && s[i] == '\n' && DASHES <= s[i + 1..]
  {
    if OccursAt(s, SEP, i) {
      assert s[i..][0] == SEP[0];
      assert s[i + 1..] == s[i..][1..];
      assert SEP[1..] == DASHES;
    }
  }

  /** Three dashes at the start of a line, before the rest of the text, are in the line. */
  lemma DashesInLine(line: string, lines: seq<string>)
    ensures DASHES <= line + Tail(lines) <==> DASHES <= line
  {
    var s := line + Tail(lines);
    if |line| < 3 {
      if lines != [] {
        assert s[|line|] == '\n' && DASHES[|line|] == '-';
      }
    } else {
      assert s[..3] == line[..3];
    }
  }

  lemma StillNoSep(cur: string, line: string, lines: seq<string>)
    requires '\n' !in line && !(DASHES <= line)
    requires NoSepBefore(cur + NL + line + Tail(lines), |cur|)
    ensures NoSepBefore(cur + NL + line + Tail(lines), |cur + NL + line|)
  {
    var s := cur + NL + line + Tail(lines);
    forall i: nat | i < |cur + NL + line| ensures !OccursAt(s, SEP, i) {
      SepAtBreak(s, i);
      if i == |cur| {
        assert s[i + 1..] == line + Tail(lines);
        DashesInLine(line, lines);
      } else if i > |cur| {
        assert s[i] == line[i - |cur| - 1];
        assert line[i - |cur| - 1] in line;
      }
    }
  }

  lemma LineHasNoSep(line: string, rest: string)
    requires '\n' !in line
    ensures NoSepBefore(line + rest, |line|)
  {
    var s := line + rest;
    forall i: nat | i < |line| ensures !OccursAt(s, SEP, i) {
      SepAtBreak(s, i);
      assert s[i] == line[i] && line[i] in line;
    }
  }

  lemma {:induction false} SplitGroups(cur: string, lines: seq<string>)
    requires forall line | line in lines :: '\n' !in line
    requires NoSepBefore(cur + Tail(lines), |cur|)
    ensures Split(cur + Tail(lines), SEP) == Group(cur, lines)
    decreases |lines|
  {
    if lines == [] {
      assert cur + "" == cur;
      SplitNowhere(cur);
    } else {
      var line, rest := lines[0], lines[1..];
      assert line in lines;
      if DASHES <= line {
        var after := line[|DASHES|..];
        assert line == DASHES + after;
        assert cur + Tail(lines) == cur + SEP + (after + Tail(rest));
        SplitHere(cur, after + Tail(rest));
        LineHasNoSep(after, Tail(rest));
        SplitGroups(after, rest);
      } else {
        assert cur + Tail(lines) == cur + NL + line + Tail(rest);
        StillNoSep(cur, line, rest);
        SplitGroups(cur + NL + line, rest);
      }
    }
  }

  /** The first document only ever grows at its end. */
  lemma {:induction false} GroupPrefix(prefix: string, cur: string, lines: seq<string>)
    ensures Group(prefix + cur, lines) == [prefix + Group(cur, lines)[0]] + Group(cur, lines)[1..]
    decreases |lines|
  {
    if lines != [] && !(DASHES <= lines[0]) {
      GroupPrefix(prefix, cur + NL + lines[0], lines[1..]);
      assert prefix + (cur + NL + lines[0]) == prefix + cur + NL + lines[0];
    }
  }

  lemma LinesHaveNoBreak(b: string)
    ensures forall line | line in Split(b, NL) :: '\n' !in line
  {
    PartsAreFree(b, '\n');
    assert ['\n'] == NL;
  }

  lemma TailJoin(lines: seq<string>)
    requires lines != []
    ensures Tail(lines) == NL + Join(lines, NL)
  {
    JoinIsTail(lines);
    assert NL + lines[0] + Tail(lines[1..]) == NL + (lines[0] + Tail(lines[1..]));
  }

  lemma LinesOf(b: string)
    ensures Tail(Split(b, NL)) == NL + b
  {
    JoinSplit(b, NL);
    TailJoin(Split(b, NL));
  }

  /** The separators of the text after a virtual line break are the line breaks before the marked lines. */
  lemma SplitIsGroup(b: string)
    ensures Split(NL + b, SEP) == Group("", Split(b, NL))
  {
    LinesOf(b);
    LinesHaveNoBreak(b);
    var lines := Split(b, NL);
    var text := NL + b;
    assert "" + Tail(lines) == text;
    SplitGroups("", lines);
  }

  lemma GroupTrimmed(lines: seq<string>)
    requires lines != []
    ensures var parts := Group("", lines);
            [TrimPrefix(parts[0], NL)] + parts[1..] ==
            if DASHES <= lines[0] then [""] + Group(lines[0][|DASHES|..], lines[1..]) else Group(lines[0], lines[1..])
  {
    var first, rest := lines[0], lines[1..];
    if !(DASHES <= first) {
      assert "" + NL + first == NL + first;
      GroupPrefix(NL, first, rest);
      var d := Group(first, rest)[0];
      assert (NL + d)[|NL|..] == d;
    }
  }

  lemma SplitIsByLines(b: string)
    ensures var parts := Split(NL + b, SEP);
            [TrimPrefix(parts[0], NL)] + parts[1..] == ByLines(b)
  {
    SplitIsGroup(b);
    GroupTrimmed(Split(b, NL));
  }

  // ---------- nothing is lost, nothing is left to split ----------

  lemma {:induction false} GroupJoins(cur: string, lines: seq<string>)
    ensures Join(Group(cur, lines), SEP) == cur + Tail(lines)
    decreases |lines|
  {
    if lines == [] {
    } else if DASHES <= lines[0] {
      var after := lines[0][|DASHES|..];
      assert lines[0] == DASHES + after;
      GroupJoins(after, lines[1..]);
      var docs := Group(after, lines[1..]);
      assert ([cur] + docs)[1..] == docs;
      assert cur + SEP + (after + Tail(lines[1..])) == cur + (NL + lines[0] + Tail(lines[1..]));
    } else {
      GroupJoins(cur + NL + lines[0], lines[1..]);
    }
  }

  /** Joined with the separator the documents give the stream back, up to the virtual break before leading dashes. */
  lemma StreamIsKept(b: string)
    ensures Join(ByLines(b), SEP) == (if DASHES <= b then NL else "") + b
  {
    var lines := Split(b, NL);
    JoinSplit(b, NL);
    JoinIsTail(lines);
    DashesInLine(lines[0], lines[1..]);
    if DASHES <= lines[0] {
      LeadingDashes(lines[0][|DASHES|..], lines[1..]);
      assert lines[0] == DASHES + lines[0][|DASHES|..];
    } else {
      GroupJoins(lines[0], lines[1..]);
    }
  }

  /** A stream that starts with dashes starts with an empty document. */
  lemma LeadingDashes(after: string, lines: seq<string>)
    ensures Join([""] + Group(after, lines), SEP) == NL + (DASHES + after + Tail(lines))
  {
    GroupJoins(after, lines);
    var docs := Group(after, lines);
    assert ([""] + docs)[0] == "" && ([""] + docs)[1..] == docs;
    assert "" + SEP + (after + Tail(lines)) == NL + (DASHES + after + Tail(lines));
  }

  function Marked(lines: seq<string>): nat {
    if lines == [] then 0 else (if DASHES <= lines[0] then 1 else 0) + Marked(lines[1..])
  }

  lemma {:induction false} GroupCounts(cur: string, lines: seq<string>)
    ensures |Group(cur, lines)| == 1 + Marked(lines)
    decreases |lines|
  {
    if lines != [] {
      if DASHES <= lines[0] {
        GroupCounts(lines[0][|DASHES|..], lines[1..]);
      } else {
        GroupCounts(cur + NL + lines[0], lines[1..]);
      }
    }
  }

  /** One document more than there are lines that start with three dashes. */
  lemma DocumentsCounted(b: string)
    ensures |ByLines(b)| == 1 + Marked(Split(b, NL))
  {
    var lines := Split(b, NL);
    if DASHES <= lines[0] {
      GroupCounts(lines[0][|DASHES|..], lines[1..]);
    } else {
      GroupCounts(lines[0], lines[1..]);
    }
  }

  /** No document holds a separator. */
  lemma NoSeparatorLeft(b: string)
    ensures forall d | d in ByLines(b) :: Index(d, SEP).None?
  {
    var parts := Split(NL + b, SEP);
    JoinSplit(NL + b, SEP);
    SplitIsByLines(b);
    var d := TrimPrefix(parts[0], NL);
    IndexFinds(d, SEP);
    IndexFinds(parts[0], SEP);
    assert parts[0] in parts;
    if NL <= parts[0] {
      forall i: nat | i <= |d| ensures OccursAt(d, SEP, i) ==> OccursAt(parts[0], SEP, i + 1) {
        assert parts[0][i + 1..] == d[i..];
      }
    }
  }

  // ---------- splitYAMLDocuments ----------

  /** unicode.IsSpace. */
  predicate IsSpace(c: char) {
    var n := c as int;
    9 <= n <= 13 || n == 0x20 || n == 0x85 || n == 0xA0 || n == 0x1680 || 0x2000 <= n <= 0x200a
    || n == 0x2028 || n == 0x2029 || n == 0x202f || n == 0x205f || n == 0x3000
  }

  function TrimLeft(s: string): string {
    if s != "" && IsSpace(s[0]) then TrimLeft(s[1..]) else s
  }

  function TrimRight(s: string): string {
    if s != "" && IsSpace(s[|s| - 1]) then TrimRight(s[..|s| - 1]) else s
  }

  function TrimSpace(s: string): string {
    TrimRight(TrimLeft(s))
  }

  predicate Skipped(doc: string) {
    TrimSpace(doc) == "" || TrimSpace(doc) == DASHES
  }

  type Decoder<V> = string -> Result<map<string, V>>

  /** The objects of the documents, or the first error. */
  function Objects<V>(docs: seq<string>, unmarshal: Decoder<V>): Result<seq<map<string, V>>> {
    if docs == [] then Ok([])
    else if Skipped(docs[0]) then Objects(docs[1..], unmarshal)
    else
      match unmarshal(docs[0])
      case Err(e) => Err(e)
      case Ok(m) =>
        match Objects(docs[1..], unmarshal)
        case Err(e) => Err(e)
        case Ok(rest) => Ok((if |m| == 0 then [] else [m]) + rest)
  }

  function After<V>(out: seq<map<string, V>>, rest: Result<seq<map<string, V>>>): Result<seq<map<string, V>>> {
    match rest
    case Ok(more) => Ok(out + more)
    case Err(e) => Err(e)
  }

  lemma AfterNothing<V>(rest: Result<seq<map<string, V>>>)
    ensures After([], rest) == rest
  {
    if rest.Ok? {
      assert [] + rest.value == rest.value;
    }
  }

  /** What one document gives. */
  function Object<V>(doc: string, unmarshal: Decoder<V>): Result<seq<map<string, V>>> {
    if Skipped(doc) then Ok([])
    else
      match unmarshal(doc)
      case Err(e) => Err(e)
      case Ok(m) => Ok(if |m| == 0 then [] else [m])
  }

  lemma AfterFirst<V>(out: seq<map<string, V>>, docs: seq<string>, unmarshal: Decoder<V>)
    requires docs != []
    ensures var first := Object(docs[0], unmarshal);
            After(out, Objects(docs, unmarshal)) ==
            if first.Ok? then After(out + first.value, Objects(docs[1..], unmarshal)) else first
  {
    var first, rest := Object(docs[0], unmarshal), Objects(docs[1..], unmarshal);
    if first.Ok? && rest.Ok? {
      assert [] + rest.value == rest.value;
      assert out + (first.value + rest.value) == (out + first.value) + rest.value;
    } else if first.Ok? {
      assert Objects(docs, unmarshal) == rest;
    }
  }

  method SplitYamlDocuments<V>(b: string, unmarshal: Decoder<V>) returns (r: Result<seq<map<string, V>>>)
    ensures r == Objects(ByLines(b), unmarshal)
  {
    var docs := SplitYamlStream(b);
    var out: seq<map<string, V>> := [];
    assert docs[0..] == docs;
    AfterNothing(Objects(docs, unmarshal));
    for i := 0 to |docs|
      invariant After(out, Objects(docs[i..], unmarshal)) == Objects(docs, unmarshal)
    {
      assert docs[i..][1..] == docs[i + 1..];
      AfterFirst(out, docs[i..], unmarshal);
      assert out + [] == out;
      var trimmed := TrimSpace(docs[i]);
      if trimmed == "" || trimmed == DASHES {
        continue;
      }
      var m := unmarshal(docs[i]);
      if m.Err? {
        return Err(m.error);
      }
      if |m.value| == 0 {
        continue;
      }
      out := out + [m.value];
    }
    assert docs[|docs|..] == [] && out + [] == out;
    r := Ok(out);
  }

  /** The decoder fails on the first document that it cannot read, and on no other account. */
  lemma {:induction false} ObjectsFail<V>(docs: seq<string>, unmarshal: Decoder<V>)
    ensures Objects(docs, unmarshal).Ok? <==> forall d | d in docs :: Skipped(d) || unmarshal(d).Ok?
    decreases |docs|
  {
    if docs != [] {
      ObjectsFail(docs[1..], unmarshal);
      assert forall d | d in docs :: d == docs[0] || d in docs[1..];
    }
  }

  lemma SeparatorIs()
    ensures SEP == "\n---" && DASHES == "---" && NL == "\n"
  {
  }

  predicate AllSpace(s: string) {
    forall c | c in s :: IsSpace(c)
  }

  lemma {:induction false} TrimLeftSkips(blank: string, s: string)
    requires AllSpace(blank) && (s == "" || !IsSpace(s[0]))
    ensures TrimLeft(blank + s) == s
    decreases |blank|
  {
    if blank == "" {
      assert blank + s == s;
    } else {
      assert blank[0] in blank && (blank + s)[1..] == blank[1..] + s;
      TrimLeftSkips(blank[1..], s);
    }
  }

  lemma {:induction false} TrimRightSkips(s: string, blank: string)
    requires AllSpace(blank) && (s == "" || !IsSpace(s[|s| - 1]))
    ensures TrimRight(s + blank) == s
    decreases |blank|
  {
    if blank == "" {
      assert s + blank == s;
    } else {
      var front := blank[..|blank| - 1];
      assert blank[|blank| - 1] in blank && (s + blank)[..|s + blank| - 1] == s + front;
      TrimRightSkips(s, front);
    }
  }

  lemma {:induction false} TrimLeftLeaves(s: string) returns (blank: string)
    ensures s == blank + TrimLeft(s) && AllSpace(blank)
    decreases |s|
  {
    if s != "" && IsSpace(s[0]) {
      var rest := TrimLeftLeaves(s[1..]);
      blank := [s[0]] + rest;
      assert s == [s[0]] + s[1..];
      assert [s[0]] + (rest + TrimLeft(s)) == blank + TrimLeft(s);
    } else {
      blank := "";
    }
  }

  lemma {:induction false} TrimRightLeaves(s: string) returns (blank: string)
    ensures s == TrimRight(s) + blank && AllSpace(blank)
    decreases |s|
  {
    if s != "" && IsSpace(s[|s| - 1]) {
      var rest := TrimRightLeaves(s[..|s| - 1]);
      var last := [s[|s| - 1]];
      blank := rest + last;
      assert s == s[..|s| - 1] + last;
      assert (TrimRight(s) + rest) + last == TrimRight(s) + blank;
    } else {
      blank := "";
    }
  }

  /** A document is skipped if and only if it is blank, but perhaps for three dashes. */
  lemma SkippedExactly(doc: string)
    ensures Skipped(doc) <==>
            AllSpace(doc) || exists a: string, b: string :: AllSpace(a) && AllSpace(b) && doc == a + DASHES + b
  {
    if Skipped(doc) {
      SkippedIsBlank(doc);
    }
    if AllSpace(doc) {
      TrimLeftSkips(doc, "");
      assert doc + "" == doc;
    }
    if x: string, y: string :| AllSpace(x) && AllSpace(y) && doc == x + DASHES + y {
      assert doc == x + (DASHES + y);
      TrimLeftSkips(x, DASHES + y);
      TrimRightSkips(DASHES, y);
    }
  }

  lemma SkippedIsBlank(doc: string)
    requires Skipped(doc)
    ensures AllSpace(doc) || exists a: string, b: string :: AllSpace(a) && AllSpace(b) && doc == a + DASHES + b
  {
    var a := TrimLeftLeaves(doc);
    var b := TrimRightLeaves(TrimLeft(doc));
    assert doc == a + TrimSpace(doc) + b;
    if TrimSpace(doc) == "" {
      assert doc == a + b;
    }
  }

  /** The objects are those of the documents that are not skipped, without the empty ones. */
  lemma {:induction false} ObjectsAre<V>(docs: seq<string>, unmarshal: Decoder<V>, m: map<string, V>)
    requires Objects(docs, unmarshal).Ok?
    ensures m in Objects(docs, unmarshal).value <==>
            |m| > 0 && exists d :: d in docs && !Skipped(d) && unmarshal(d) == Ok(m)
    decreases |docs|
  {
    if docs != [] {
      ObjectsAre(docs[1..], unmarshal, m);
      assert forall d :: d in docs <==> d == docs[0] || d in docs[1..];
    }
  }

  /** The error is that of the first document that cannot be decoded. */
  lemma {:induction false} FirstError<V>(docs: seq<string>, unmarshal: Decoder<V>, i: nat)
    requires i < |docs| && !Skipped(docs[i]) && unmarshal(docs[i]).Err?
    requires forall j | 0 <= j < i :: Skipped(docs[j]) || unmarshal(docs[j]).Ok?
    ensures Objects(docs, unmarshal).Err? && Objects(docs, unmarshal).error == unmarshal(docs[i]).error
    decreases |docs|
  {
    if i > 0 {
      FirstError(docs[1..], unmarshal, i - 1);
    }
  }

  // ---------- a rendered stream read back ----------

  /** What a builder writes: a line of dashes stands between two manifests. */
  function Rendered(yamls: seq<string>): string {
    if yamls == [] then ""
    else if |yamls| == 1 then yamls[0]
    else yamls[0] + DASHES + NL + Rendered(yamls[1..])
  }

  /** A manifest ends with a line break, and no line of it starts with three dashes. */
  predicate IsManifest(yaml: string) {
    yaml != "" && yaml[|yaml| - 1] == '\n' && Index(NL + yaml, SEP).None?
  }

  /** Without its last line break. */
  function Cut(yaml: string): string {
    if yaml == "" then "" else yaml[..|yaml| - 1]
  }

  /** A blank line before a document makes no difference to the decoder. */
  ghost predicate IgnoresLeadingBreak<V>(unmarshal: Decoder<V>, yamls: seq<string>) {
    forall y | y in yamls :: unmarshal(NL + y) == unmarshal(y) && unmarshal(NL + Cut(y)) == unmarshal(Cut(y))
  }

  /** These manifests were written for these objects, none of them empty. */
  ghost predicate AreWritten<V>(unmarshal: Decoder<V>, yamls: seq<string>, objs: seq<map<string, V>>) {
    && |yamls| == |objs|
    && (forall y | y in yamls :: IsManifest(y) && !Skipped(y))
    && (forall i | 0 <= i < |yamls| :: unmarshal(yamls[i]) == Ok(objs[i]) && |objs[i]| > 0)
  }

  /** The separator cannot overlap itself. */
  lemma SepStartsAfter(part: string, rest: string)
    requires Index(part, SEP).None?
    ensures NoSepBefore(part + SEP + rest, |part|)
  {
    var s := part + SEP + rest;
    IndexFinds(part, SEP);
    forall i: nat | i < |part| ensures !OccursAt(s, SEP, i) {
      SepAtBreak(s, i);
      if i + |SEP| <= |part| {
        assert s[i..][..|SEP|] == part[i..][..|SEP|];
        assert !OccursAt(part, SEP, i);
      } else {
        var k := |part| - i;
        assert s[i + k] == '\n' && SEP[k] == '-';
        assert s[i..][k] == s[i + k];
      }
    }
  }

  /** Splitting undoes joining. */
  lemma {:induction false} SplitJoin(parts: seq<string>)
    requires parts != [] && forall p | p in parts :: Index(p, SEP).None?
    ensures Split(Join(parts, SEP), SEP) == parts
    decreases |parts|
  {
    assert parts[0] in parts;
    if |parts| > 1 {
      SplitJoin(parts[1..]);
      SepStartsAfter(parts[0], Join(parts[1..], SEP));
      SplitHere(parts[0], Join(parts[1..], SEP));
    }
  }

  /** The pieces of a rendered stream: every manifest after a line break, without its own last one, save the last. */
  function Pieces(yamls: seq<string>): (pieces: seq<string>)
    ensures |pieces| == |yamls|
  {
    if yamls == [] then []
    else if |yamls| == 1 then [NL + yamls[0]]
    else [NL + Cut(yamls[0])] + Pieces(yamls[1..])
  }

  lemma LinkText(cut: string, rest: string)
    ensures NL + (cut + NL + DASHES + NL + rest) == (NL + cut) + SEP + (NL + rest)
  {
  }

  lemma {:induction false} RenderedIsJoin(yamls: seq<string>)
    requires yamls != [] && forall y | y in yamls :: IsManifest(y)
    ensures NL + Rendered(yamls) == Join(Pieces(yamls), SEP)
    decreases |yamls|
  {
    if |yamls| > 1 {
      var y, rest := yamls[0], yamls[1..];
      RenderedIsJoin(rest);
      assert IsManifest(y) && y == Cut(y) + NL;
      LinkText(Cut(y), Rendered(rest));
      var pieces := Pieces(yamls);
      assert pieces[0] == NL + Cut(y) && pieces[1..] == Pieces(rest);
    }
  }

  lemma CutStaysFree(s: string, n: nat)
    requires n <= |s| && Index(s, SEP).None?
    ensures Index(s[..n], SEP).None?
  {
    IndexFinds(s, SEP);
    IndexFinds(s[..n], SEP);
    forall i: nat | i <= n ensures OccursAt(s[..n], SEP, i) ==> OccursAt(s, SEP, i) {
      assert s[..n][i..] <= s[i..];
    }
  }

  lemma {:induction false} PiecesAreFree(yamls: seq<string>)
    requires forall y | y in yamls :: IsManifest(y)
    ensures forall p | p in Pieces(yamls) :: Index(p, SEP).None?
    decreases |yamls|
  {
    if yamls != [] {
      var y := yamls[0];
      assert IsManifest(y);
      CutStaysFree(NL + y, |y|);
      assert (NL + y)[..|y|] == NL + Cut(y);
      PiecesAreFree(yamls[1..]);
    }
  }

  /** What the splitter makes of a rendered stream. */
  lemma RenderedSplits(yamls: seq<string>)
    requires yamls != [] && forall y | y in yamls :: IsManifest(y)
    ensures ByLines(Rendered(yamls)) == [TrimPrefix(Pieces(yamls)[0], NL)] + Pieces(yamls)[1..]
  {
    RenderedIsJoin(yamls);
    PiecesAreFree(yamls);
    SplitJoin(Pieces(yamls));
    SplitIsByLines(Rendered(yamls));
  }

  /** What the splitter keeps of a manifest: all but the last one lose their last line break. */
  function Kept(yamls: seq<string>, i: nat): string
    requires i < |yamls|
  {
    if i < |yamls| - 1 then Cut(yamls[i]) else yamls[i]
  }

  lemma {:induction false} PiecesAt(yamls: seq<string>, i: nat)
    requires i < |yamls|
    ensures Pieces(yamls)[i] == NL + Kept(yamls, i)
    decreases |yamls|
  {
    if i > 0 {
      PiecesAt(yamls[1..], i - 1);
      assert Pieces(yamls)[1..] == Pieces(yamls[1..]);
    }
  }

  /** The documents of a rendered stream, each perhaps after a line break. */
  lemma RenderedDocuments(yamls: seq<string>)
    requires yamls != [] && forall y | y in yamls :: IsManifest(y)
    ensures var docs := ByLines(Rendered(yamls));
            && |docs| == |yamls|
            && forall i | 0 <= i < |yamls| :: docs[i] == Kept(yamls, i) || docs[i] == NL + Kept(yamls, i)
  {
    RenderedSplits(yamls);
    forall i | 0 <= i < |yamls| ensures Pieces(yamls)[i] == NL + Kept(yamls, i) {
      PiecesAt(yamls, i);
    }
    assert (NL + Kept(yamls, 0))[|NL|..] == Kept(yamls, 0);
  }

  // ---------- blank documents ----------

  lemma {:induction false} TrimLeftBreak(s: string)
    ensures TrimLeft(s + NL) == if TrimLeft(s) == "" then "" else TrimLeft(s) + NL
    ensures TrimLeft(NL + s) == TrimLeft(s)
    decreases |s|
  {
    assert (NL + s)[1..] == s;
    if s == "" {
      assert s + NL == NL && NL[1..] == "";
    } else if IsSpace(s[0]) {
      assert (s + NL)[1..] == s[1..] + NL;
      TrimLeftBreak(s[1..]);
    }
  }

  /** A line break at an end of a document makes it no more blank, and no less. */
  lemma SkippedIgnoresBreaks(doc: string)
    ensures Skipped(NL + doc) <==> Skipped(doc)
    ensures Skipped(doc + NL) <==> Skipped(doc)
  {
    TrimLeftBreak(doc);
    var left := TrimLeft(doc);
    assert (left + NL)[..|left|] == left;
  }

  lemma KeptIsNotSkipped(yamls: seq<string>, i: nat)
    requires i < |yamls| && IsManifest(yamls[i]) && !Skipped(yamls[i])
    ensures !Skipped(Kept(yamls, i)) && !Skipped(NL + Kept(yamls, i))
  {
    var cut := Cut(yamls[i]);
    assert yamls[i] == cut + NL;
    SkippedIgnoresBreaks(cut);
    SkippedIgnoresBreaks(Kept(yamls, i));
  }

  // ---------- the round trip ----------

  lemma {:induction false} FewerObjects<V>(docs: seq<string>, unmarshal: Decoder<V>)
    ensures Objects(docs, unmarshal).Ok? ==> |Objects(docs, unmarshal).value| <= |docs|
    decreases |docs|
  {
    if docs != [] {
      FewerObjects(docs[1..], unmarshal);
    }
  }

  /** Non-blank documents give non-empty objects, one each, if and only if each gives its own. */
  lemma {:induction false} ObjectsExactly<V>(docs: seq<string>, unmarshal: Decoder<V>, objs: seq<map<string, V>>)
    requires |docs| == |objs|
    requires forall d | d in docs :: !Skipped(d)
    requires forall o | o in objs :: |o| > 0
    ensures Objects(docs, unmarshal) == Ok(objs) <==> forall i | 0 <= i < |docs| :: unmarshal(docs[i]) == Ok(objs[i])
    decreases |docs|
  {
    if docs != [] {
      assert docs[0] in docs && objs[0] in objs;
      ObjectsExactly(docs[1..], unmarshal, objs[1..]);
      FewerObjects(docs[1..], unmarshal);
      assert objs == [objs[0]] + objs[1..];
      FirstAndRest(docs, unmarshal, objs);
    }
  }

  lemma FirstAndRest<V>(docs: seq<string>, unmarshal: Decoder<V>, objs: seq<map<string, V>>)
    requires |docs| == |objs| && docs != []
    ensures (forall i | 0 <= i < |docs| :: unmarshal(docs[i]) == Ok(objs[i])) <==>
            && unmarshal(docs[0]) == Ok(objs[0])
            && forall i | 0 <= i < |docs[1..]| :: unmarshal(docs[1..][i]) == Ok(objs[1..][i])
  {
    assert forall i | 0 < i < |docs| :: docs[i] == docs[1..][i - 1] && objs[i] == objs[1..][i - 1];
  }

  /** A document reads as what is kept of its manifest. */
  lemma ReadsAsKept<V>(unmarshal: Decoder<V>, yamls: seq<string>, i: nat, doc: string)
    requires IgnoresLeadingBreak(unmarshal, yamls) && i < |yamls|
    requires doc == Kept(yamls, i) || doc == NL + Kept(yamls, i)
    ensures unmarshal(doc) == unmarshal(Kept(yamls, i))
  {
    assert yamls[i] in yamls;
  }

  /**
   The round trip of a build.  When no line of a manifest starts with three dashes, the
   objects of a rendered stream are the objects that were written, in order, if and only if
   every manifest but the last one reads the same without its last line break.
   */
  lemma RenderedObjectsSurvive<V>(unmarshal: Decoder<V>, yamls: seq<string>, objs: seq<map<string, V>>)
    requires AreWritten(unmarshal, yamls, objs) && IgnoresLeadingBreak(unmarshal, yamls)
    ensures Objects(ByLines(Rendered(yamls)), unmarshal) == Ok(objs) <==>
            forall i | 0 <= i < |yamls| - 1 :: unmarshal(Cut(yamls[i])) == Ok(objs[i])
  {
    if yamls == [] {
      assert ByLines("") == [""];
      assert [""][1..] == [];
    } else {
      RenderedDocuments(yamls);
      var docs := ByLines(Rendered(yamls));
      forall i | 0 <= i < |docs|
        ensures !Skipped(docs[i]) && unmarshal(docs[i]) == unmarshal(Kept(yamls, i))
      {
        assert yamls[i] in yamls;
        KeptIsNotSkipped(yamls, i);
        ReadsAsKept(unmarshal, yamls, i, docs[i]);
      }
      ObjectsExactly(docs, unmarshal, objs);
      AllKept(unmarshal, yamls, objs, docs);
    }
  }

  lemma AllKept<V>(unmarshal: Decoder<V>, yamls: seq<string>, objs: seq<map<string, V>>, docs: seq<string>)
    requires AreWritten(unmarshal, yamls, objs) && |docs| == |yamls|
    requires forall i | 0 <= i < |docs| :: unmarshal(docs[i]) == unmarshal(Kept(yamls, i))
    ensures (forall i | 0 <= i < |docs| :: unmarshal(docs[i]) == Ok(objs[i])) <==>
            forall i | 0 <= i < |yamls| - 1 :: unmarshal(Cut(yamls[i])) == Ok(objs[i])
  {
    forall i | 0 <= i < |yamls| - 1 ensures unmarshal(docs[i]) == unmarshal(Cut(yamls[i])) {
      assert Kept(yamls, i) == Cut(yamls[i]);
    }
    assert yamls != [] ==> unmarshal(docs[|yamls| - 1]) == Ok(objs[|yamls| - 1]);
  }

  // ---------- a manifest that is altered ----------

  lemma NoDashNoSeparator(s: string)
    requires '-' !in s
    ensures Index(s, SEP).None?
  {
    IndexFinds(s, SEP);
    forall i: nat ensures !OccursAt(s, SEP, i) {
      SepAtBreak(s, i);
      assert i < |s| && DASHES <= s[i + 1..] ==> s[i + 1..][0] == '-' && s[i + 1..][0] in s;
    }
  }

  /** Letters are no space. */
  lemma LetterIsKept(doc: string)
    requires doc != "" && 'a' <= doc[0] <= 'z'
    ensures !Skipped(doc)
  {
    TrimRightKeepsHead(doc);
  }

  lemma {:induction false} TrimRightKeepsHead(s: string)
    requires s != "" && !IsSpace(s[0])
    ensures TrimRight(s) != "" && TrimRight(s)[0] == s[0]
    decreases |s|
  {
    if IsSpace(s[|s| - 1]) {
      TrimRightKeepsHead(s[..|s| - 1]);
    }
  }

  /** A manifest whose value is a literal block: its text ends with a line break. */
  const SCRIPT: string := "a: |\n  x\n"
  const PLAIN: string := "b: 1\n"

  /**
   A literal block at the end of a manifest ends with a line break, unless the stream ends
   before it (section 8.1.1.2 of YAML 1.2).  The splitter takes that line break away, so the
   object comes back altered.
   */
  lemma LastBlockIsAltered<V>(unmarshal: Decoder<V>, whole: map<string, V>, chomped: map<string, V>,
                              plain: map<string, V>)
    requires unmarshal(SCRIPT) == Ok(whole) && unmarshal(Cut(SCRIPT)) == Ok(chomped) && unmarshal(PLAIN) == Ok(plain)
    requires whole != chomped && |whole| > 0 && |plain| > 0
    requires IgnoresLeadingBreak(unmarshal, [SCRIPT, PLAIN])
    ensures Objects(ByLines(Rendered([SCRIPT, PLAIN])), unmarshal) != Ok([whole, plain])
  {
    var yamls, objs := [SCRIPT, PLAIN], [whole, plain];
    NoDashNoSeparator(NL + SCRIPT);
    NoDashNoSeparator(NL + PLAIN);
    LetterIsKept(SCRIPT);
    LetterIsKept(PLAIN);
    assert SCRIPT[|SCRIPT| - 1] == '\n' && PLAIN[|PLAIN| - 1] == '\n';
    assert AreWritten(unmarshal, yamls, objs);
    RenderedObjectsSurvive(unmarshal, yamls, objs);
    assert unmarshal(Cut(yamls[0])) != Ok(objs[0]);
  }
}
