/**
What the parser makes of single lines, and how far a section reaches
(pkg/capacity/dmi/dmi.go:134, 165-185, 211-329).
*/
module DmiLines {
  import opened Options
  import opened Dmi
  import opened DmiRoundTrip

  ghost predicate AllSpace(s: string) {
    forall j :: 0 <= j < |s| ==> IsSpace(s[j])
  }

  // ---------------------------------------------------------------- single lines

  lemma {:induction false} TrimLeftSplits(s: string) returns (left: string)
    ensures s == left + TrimLeft(s) && AllSpace(left)
    ensures TrimLeft(s) != "" ==> !IsSpace(TrimLeft(s)[0])
  {
    if s == "" || !IsSpace(s[0]) {
      left := "";
    } else {
      var rest := TrimLeftSplits(s[1..]);
      left := [s[0]] + rest;
    }
  }

  lemma {:induction false} TrimRightSplits(s: string) returns (right: string)
    ensures s == TrimRight(s) + right && AllSpace(right)
    ensures TrimRight(s) != "" ==> !IsSpace(TrimRight(s)[|TrimRight(s)| - 1])
  {
    if s == "" || !IsSpace(s[|s| - 1]) {
      right := "";
    } else {
      var rest := TrimRightSplits(s[..|s| - 1]);
      right := rest + [s[|s| - 1]];
    }
  }

  /** Trimming takes away white space at both ends, and all of it. */
  lemma TrimIsExact(s: string) returns (left: string, right: string)
    ensures s == left + TrimSpace(s) + right && AllSpace(left) && AllSpace(right) && Tidy(TrimSpace(s))
  {
    left := TrimLeftSplits(s);
    right := TrimRightSplits(TrimLeft(s));
    assert s == left + (TrimSpace(s) + right);
    if TrimSpace(s) != "" {
      assert TrimSpace(s)[0] == TrimLeft(s)[0];
    }
  }

  /** A line is blank exactly when it is nothing but white space. */
  lemma BlankIff(s: string)
    ensures Blank(s) <==> AllSpace(s)
  {
    var left, right := TrimIsExact(s);
    if Blank(s) {
      assert s == left + right;
    } else {
      assert s[|left|] == TrimSpace(s)[0];
    }
  }

  lemma {:induction false} LevelFromIs(s: string, i: nat, k: nat)
    requires i <= k < |s| && (forall j :: i <= j < k ==> IsSpace(s[j])) && !IsSpace(s[k])
    ensures LevelFrom(s, i) == k
    decreases k - i
  {
    if i < k {
      LevelFromIs(s, i + 1, k);
    }
  }

  /** The level of a line is how much white space it begins with. */
  lemma LevelIs(s: string, k: nat)
    requires k < |s| && AllSpace(s[..k]) && !IsSpace(s[k])
    ensures Level(s) == k
  {
    assert forall j :: 0 <= j < k ==> s[j] == s[..k][j];
    LevelFromIs(s, 0, k);
  }

  lemma {:induction false} ColonIs(s: string, i: nat, k: nat)
    requires i <= k < |s| && s[k] == ':' && forall j :: i <= j < k ==> s[j] != ':'
    ensures Colon(s, i) == k
    decreases k - i
  {
    if i < k {
      ColonIs(s, i + 1, k);
    }
  }

  /** Key and value are split at the first colon that something comes before, even another colon. */
  lemma SplitsAtColon(first: char, key: string, val: string)
    requires ':' !in key
    ensures KeyValue([first] + key + ":" + val) == Some((TrimSpace([first] + key), TrimSpace(val)))
  {
    var line := [first] + key + ":" + val;
    var k := 1 + |key|;
    assert line[..k] == [first] + key && line[k + 1..] == val;
    assert forall j :: 1 <= j < k ==> line[j] == key[j - 1];
    ColonIs(line, 1, k);
  }

  /** Without such a colon there is no property. */
  lemma NoColonNoProperty(line: string)
    ensures KeyValue(line).None? <==> forall j :: 1 <= j < |line| ==> line[j] != ':'
  {
  }

  // ---------------------------------------------------------------- how far a section reaches

  /** The first blank line, or the number of lines. */
  ghost predicate FirstBlank(ls: seq<string>, m: nat) {
    m <= |ls| && (m < |ls| ==> Blank(ls[m])) && forall j :: 0 <= j < m ==> !Blank(ls[j])
  }

  lemma {:induction false} ListEndsBefore(ls: seq<string>, level: nat, m: nat)
    requires level > 0 && m < |ls| && Level(ls[m]) == 0
    ensures ListLength(ls, level) <= m
    decreases m
  {
    if m > 0 && Level(ls[0]) >= level {
      ListEndsBefore(ls[1..], level, m - 1);
    }
  }

  lemma ItemsEndBefore(ls: seq<string>, m: nat)
    requires ls != [] && 0 < m <= |ls| && FirstBlank(ls, m)
    ensures ItemCount(ls) + 1 <= m
  {
    if m < |ls| && m > 1 {
      BlankHasNoLevel(ls[m]);
      if Level(ls[1]) > Level(ls[0]) {
        ListEndsBefore(ls[1..], Level(ls[1]), m - 1);
      }
    } else if m < |ls| {
      BlankHasNoLevel(ls[m]);
    }
  }

  /** The section goes on behind a title, or behind a property with its items. */
  function NextLine(ls: seq<string>): nat
    requires ls != [] && ls[0] != ""
  {
    if IsSpace(ls[0][0]) then ItemCount(ls) + 1 else 1
  }

  function NextPart(ls: seq<string>, sub: SubSection): SubSection
    requires ls != [] && ls[0] != "" && (IsSpace(ls[0][0]) ==> KeyValue(ls[0]).Some?)
  {
    if IsSpace(ls[0][0]) then WithProperty(sub, KeyValue(ls[0]).value, Trimmed(ls[1..ItemCount(ls) + 1]))
    else SubSection(ls[0], map[])
  }

  lemma StepBody(ls: seq<string>, sub: SubSection)
    requires ls != [] && ls[0] != "" && !Blank(ls[0])
    ensures
      if IsSpace(ls[0][0]) && KeyValue(ls[0]).None? then ReadBody(ls, sub) == Malformed
      else
        var next := ReadBody(ls[NextLine(ls)..], NextPart(ls, sub));
        && (ReadBody(ls, sub).Body? <==> next.Body?)
        && (next.Body? ==> ReadBody(ls, sub).rest == next.rest)
  {
    if IsSpace(ls[0][0]) {
      BodyOfProperty(ls, sub);
    }
  }

  lemma StepBefore(ls: seq<string>, m: nat)
    requires FirstBlank(ls, m) && m > 0
    ensures ls != [] && ls[0] != "" && !Blank(ls[0]) && 0 < NextLine(ls) <= m
    ensures FirstBlank(ls[NextLine(ls)..], m - NextLine(ls))
  {
    BlankIff(ls[0]);
    ItemsEndBefore(ls, m);
    FirstBlankLater(ls, m, NextLine(ls));
  }

  /** A section reaches exactly to the first blank line after its title. */
  lemma {:induction false} SectionEndsAtBlank(ls: seq<string>, sub: SubSection, m: nat)
    requires FirstBlank(ls, m) && ReadBody(ls, sub).Body?
    ensures ReadBody(ls, sub).rest == ls[m..]
    decreases |ls|
  {
    if m > 0 {
      StepBefore(ls, m);
      StepBody(ls, sub);
      var n := NextLine(ls);
      SectionEndsAtBlank(ls[n..], NextPart(ls, sub), m - n);
      assert ls[n..][m - n..] == ls[m..];
    }
  }

  lemma FirstBlankLater(ls: seq<string>, m: nat, n: nat)
    requires FirstBlank(ls, m) && n <= m
    ensures FirstBlank(ls[n..], m - n)
  {
  }

  /** Up to the first blank line every indented line has a key. */
  ghost predicate Keyed(ls: seq<string>, m: nat) {
    FirstBlank(ls, m) && forall j :: 0 <= j < m && ls[j] != "" && IsSpace(ls[j][0]) ==> KeyValue(ls[j]).Some?
  }

  lemma KeyedLater(ls: seq<string>, m: nat, n: nat)
    requires Keyed(ls, m) && n <= m
    ensures Keyed(ls[n..], m - n)
  {
    FirstBlankLater(ls, m, n);
  }

  /** It is read whenever every indented line has a key. */
  lemma {:induction false} KeyedSectionIsRead(ls: seq<string>, sub: SubSection, m: nat)
    requires Keyed(ls, m)
    ensures ReadBody(ls, sub).Body?
    decreases |ls|
  {
    if m > 0 {
      StepBefore(ls, m);
      StepBody(ls, sub);
      KeyedLater(ls, m, NextLine(ls));
      KeyedSectionIsRead(ls[NextLine(ls)..], NextPart(ls, sub), m - NextLine(ls));
    }
  }

  /** A section that is its first line alone, or has no type, or an indented line without a key after its title, fails. */
  lemma SectionFails(ls: seq<string>)
    requires ls != [] && "Handle" <= ls[0]
    ensures |ls| == 1 ==> ReadSections(ls).None?
    ensures HandleType(ls[0]).None? ==> ReadSections(ls).None?
    ensures |ls| > 2 && !Blank(ls[2]) && IsSpace(ls[2][0]) && KeyValue(ls[2]).None? ==> ReadSections(ls).None?
  {
    if |ls| > 2 && !Blank(ls[2]) && IsSpace(ls[2][0]) {
      assert ls[2..][0] == ls[2];
    }
  }

  // ---------------------------------------------------------------- the tool that printed the lines

  /** Line `i` is the first that is a comment or begins a section. */
  ghost predicate Leads(ls: seq<string>, i: nat) {
    && i < |ls| && ("#" <= ls[i] || "Handle" <= ls[i])
    && forall j :: 0 <= j < i ==> !("#" <= ls[j]) && !("Handle" <= ls[j])
  }

  lemma {:induction false} ToolingAt(ls: seq<string>, i: nat)
    requires Leads(ls, i)
    ensures Tooling(ls) == if "Handle" <= ls[i] then ("", ls[i..]) else (TrimSpace(ls[i][1..]), ls[i + 1..])
    decreases i
  {
    if i > 0 {
      assert Leads(ls[1..], i - 1);
      ToolingAt(ls[1..], i - 1);
    }
  }

  lemma {:induction false} NoTooling(ls: seq<string>)
    requires forall j :: 0 <= j < |ls| ==> !("#" <= ls[j]) && !("Handle" <= ls[j])
    ensures Tooling(ls) == ("", [])
    decreases |ls|
  {
    if ls != [] {
      NoTooling(ls[1..]);
    }
  }

  /** The tool is named by the first comment, if that comes before the first section and is not blank; else it is unknown. */
  lemma AggregatorIs(ls: seq<string>, i: nat)
    requires ParseLines(ls).Some? && Leads(ls, i)
    ensures ParseLines(ls).value.aggregator ==
      if "#" <= ls[i] && !Blank(ls[i][1..]) then TrimSpace(ls[i][1..]) else "unknown"
  {
    ToolingAt(ls, i);
    assert "#" <= ls[i] ==> ls[i][0] == '#';
    assert "Handle" <= ls[i] ==> ls[i][0] == 'H';
  }

  /** Lines without a comment or a section are parsed, as of an unknown tool and without sections. */
  lemma NothingToRead(ls: seq<string>)
    requires forall j :: 0 <= j < |ls| ==> !("#" <= ls[j]) && !("Handle" <= ls[j])
    ensures ParseLines(ls) == Some(Dmi("unknown", []))
  {
    NoTooling(ls);
  }
}
