/** The string functions of Go's strings package that the repository's formats rest on. */
module Text {
  import opened Wrappers

  /** strings.Index: where `sep` first occurs in `s`. */
  function Index(s: string, sep: string): Option<nat> {
    if sep <= s then Some(0)
    else if s == [] then None
    else
      match Index(s[1..], sep)
      case None => None
      case Some(i) => Some(i + 1)
  }

  /** `sep` stands in `s` at position `i`. */
  predicate OccursAt(s: string, sep: string, i: nat) {
    i <= |s| && sep <= s[i..]
  }

  lemma {:induction false} IndexFinds(s: string, sep: string)
    ensures Index(s, sep).Some? ==> OccursAt(s, sep, Index(s, sep).value)
    ensures forall j: nat | OccursAt(s, sep, j) :: Index(s, sep).Some? && Index(s, sep).value <= j
  {
    if !(sep <= s) && s != [] {
      IndexFinds(s[1..], sep);
      forall j: nat | OccursAt(s, sep, j)
        ensures Index(s, sep).Some? && Index(s, sep).value <= j
      {
        if j > 0 {
          assert OccursAt(s[1..], sep, j - 1);
        }
      }
    }
  }

  lemma {:induction false} AbsentChar(s: string, c: char)
    requires c !in s
    ensures Index(s, [c]).None?
  {
    if s != "" {
      AbsentChar(s[1..], c);
      assert s[0] in s && [c][0] == c;
    }
  }

  /** strings.Split with a non-empty separator. */
  function Split(s: string, sep: string): (parts: seq<string>)
    requires sep != ""
    ensures parts != []
    decreases |s|
  {
    IndexFinds(s, sep);
    match Index(s, sep)
    case None => [s]
    case Some(i) => [s[..i]] + Split(s[i + |sep|..], sep)
  }

  /** strings.Join. */
  function Join(parts: seq<string>, sep: string): string {
    if parts == [] then ""
    else if |parts| == 1 then parts[0]
    else parts[0] + sep + Join(parts[1..], sep)
  }

  /** Splitting loses nothing, and no part contains the separator. */
  lemma {:induction false} JoinSplit(s: string, sep: string)
    requires sep != ""
    ensures Join(Split(s, sep), sep) == s
    ensures forall part :: part in Split(s, sep) ==> Index(part, sep).None?
    decreases |s|
  {
    IndexFinds(s, sep);
    if Index(s, sep).Some? {
      var i := Index(s, sep).value;
      var rest := Split(s[i + |sep|..], sep);
      JoinSplit(s[i + |sep|..], sep);
      assert Split(s, sep) == [s[..i]] + rest;
      assert Split(s, sep)[1..] == rest;
      assert s == s[..i] + sep + s[i + |sep|..];
      forall part | part in Split(s, sep) ensures Index(part, sep).None? {
        if part !in rest { FirstPartFree(s, sep); }
      }
    }
  }

  lemma FirstPartFree(s: string, sep: string)
    requires sep != "" && Index(s, sep).Some?
    ensures OccursAt(s, sep, Index(s, sep).value) && Index(s[..Index(s, sep).value], sep).None?
  {
    IndexFinds(s, sep);
    var front := s[..Index(s, sep).value];
    IndexFinds(front, sep);
    if Index(front, sep).Some? {
      assert OccursAt(s, sep, Index(front, sep).value);
    }
  }

  /** Where the separator is one character, no part holds that character. */
  lemma PartsAreFree(s: string, c: char)
    ensures forall part :: part in Split(s, [c]) ==> c !in part
  {
    JoinSplit(s, [c]);
    forall part | part in Split(s, [c]) && c in part ensures false {
      var j: nat :| j < |part| && part[j] == c;
      IndexFinds(part, [c]);
      assert OccursAt(part, [c], j);
    }
  }

  /** strings.TrimRight(s, "\n"). */
  function TrimNewlines(s: string): string {
    if s != [] && s[|s| - 1] == '\n' then TrimNewlines(s[..|s| - 1]) else s
  }

  /** Only line breaks at the end are trimmed, and all of them. */
  lemma {:induction false} TrimNewlinesMeans(s: string)
    ensures TrimNewlines(s) <= s && forall c | c in s[|TrimNewlines(s)|..] :: c == '\n'
    ensures var t := TrimNewlines(s); t == "" || t[|t| - 1] != '\n'
    decreases |s|
  {
    if s != "" && s[|s| - 1] == '\n' {
      var front := s[..|s| - 1];
      TrimNewlinesMeans(front);
      assert s[|TrimNewlines(front)|..] == front[|TrimNewlines(front)|..] + ['\n'];
    }
  }
}
