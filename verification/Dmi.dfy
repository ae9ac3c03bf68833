/**
The parser of dmidecode output (pkg/capacity/dmi/dmi.go:155-185, 211-329), on
the lines of the input.
*/
module Dmi {

  import opened Options

  // ---------------------------------------------------------------- text

  /** The characters Unicode counts as white space. */
  predicate IsSpace(c: char) {
    var n := c as int;
    9 <= n <= 13 || n == 0x20 || n == 0x85 || n == 0xA0 || n == 0x1680 || 0x2000 <= n <= 0x200A
    || n == 0x2028 || n == 0x2029 || n == 0x202F || n == 0x205F || n == 0x3000
  }

  function TrimLeft(s: string): string {
    if s == "" then "" else if IsSpace(s[0]) then TrimLeft(s[1..]) else s
  }

  function TrimRight(s: string): string {
    if s == "" then "" else if IsSpace(s[|s| - 1]) then TrimRight(s[..|s| - 1]) else s
  }

  function TrimSpace(s: string): string {
    TrimRight(TrimLeft(s))
  }

  predicate Blank(s: string) {
    TrimSpace(s) == ""
  }

  /** The position of the first character that is not white space, zero if there is none. */
  function Level(s: string): nat {
    LevelFrom(s, 0)
  }

  function LevelFrom(s: string, i: nat): nat
    requires i <= |s|
    decreases |s| - i
  {
    if i == |s| then 0 else if IsSpace(s[i]) then LevelFrom(s, i + 1) else i
  }

  /** The first colon that has a character before it. */
  function Colon(s: string, i: nat): (k: nat)
    requires i <= |s|
    ensures i <= k <= |s|
    ensures k < |s| ==> s[k] == ':'
    ensures forall j :: i <= j < k ==> s[j] != ':'
    decreases |s| - i
  {
    if i == |s| || s[i] == ':' then i else Colon(s, i + 1)
  }

  /** A key and a value, without the space around them. */
  function KeyValue(line: string): Option<(string, string)> {
    if line == "" then None
    else
      var k := Colon(line, 1);
      if k == |line| then None else Some((TrimSpace(line[..k]), TrimSpace(line[k + 1..])))
  }

  const TYPE_MARK := "DMI type "

  function Digits(s: string, i: nat): (k: nat)
    requires i <= |s|
    ensures i <= k <= |s|
    ensures forall j :: i <= j < k ==> '0' <= s[j] <= '9'
    decreases |s| - i
  {
    if i < |s| && '0' <= s[i] <= '9' then Digits(s, i + 1) else i
  }

  function Number(s: string): nat
    requires forall j :: 0 <= j < |s| ==> '0' <= s[j] <= '9'
  {
    if s == "" then 0 else 10 * Number(s[..|s| - 1]) + (s[|s| - 1] as int - '0' as int)
  }

  /** The number after the first type mark that is followed by a digit; it has to fit a signed 64-bit integer. */
  function HandleType(line: string): Option<nat> {
    if |line| <= |TYPE_MARK| then None
    else if TYPE_MARK <= line && Digits(line, |TYPE_MARK|) > |TYPE_MARK| then
      var n := Number(line[|TYPE_MARK|..Digits(line, |TYPE_MARK|)]);
      if n < 0x8000_0000_0000_0000 then Some(n) else None
    else HandleType(line[1..])
  }

  // ---------------------------------------------------------------- parsed form

  datatype Property = Property(val: string, items: seq<string>)
  datatype SubSection = SubSection(title: string, properties: map<string, Property>)
  datatype Section = Section(handle: string, kind: nat, subs: seq<SubSection>)

  /** What is read of one section: its parts and the lines that are left. */
  datatype Body = Malformed | Body(subs: seq<SubSection>, rest: seq<string>)
  {
    function Prepend(sub: SubSection): Body {
      if Malformed? then Malformed else Body([sub] + subs, rest)
    }
  }

  /** How many lines from the first on are indented at least that far. */
  function ListLength(ls: seq<string>, level: nat): (n: nat)
    ensures n <= |ls|
    ensures forall j :: 0 <= j < n ==> Level(ls[j]) >= level
    ensures n < |ls| ==> Level(ls[n]) < level
  {
    if ls == [] || Level(ls[0]) < level then 0 else 1 + ListLength(ls[1..], level)
  }

  function Trimmed(ls: seq<string>): (r: seq<string>)
    ensures |r| == |ls|
  {
    if ls == [] then [] else Trimmed(ls[..|ls| - 1]) + [TrimSpace(ls[|ls| - 1])]
  }

  /** The lines of the list that follows a property: those further to the right than the property. */
  function ItemCount(ls: seq<string>): (n: nat)
    requires ls != []
    ensures n < |ls|
  {
    if |ls| > 1 && Level(ls[1]) > Level(ls[0]) then ListLength(ls[1..], Level(ls[1])) else 0
  }

  function ReadBody(ls: seq<string>, sub: SubSection): (b: Body)
    ensures b.Body? ==> |b.rest| <= |ls|
    decreases |ls|
  {
    if ls == [] || ls[0] == "" || Blank(ls[0]) then Body([sub], ls)
    else if !IsSpace(ls[0][0]) then ReadBody(ls[1..], SubSection(ls[0], map[])).Prepend(sub)
    else
      var kv := KeyValue(ls[0]);
      if kv.None? then Malformed
      else
        var n := ItemCount(ls);
        ReadBody(ls[n + 1..], WithProperty(sub, kv.value, Trimmed(ls[1..n + 1])))
  }

  /** The sections of the lines; lines outside sections are skipped. */
  function ReadSections(ls: seq<string>): Option<seq<Section>>
    decreases |ls|
  {
    if ls == [] then Some([])
    else if !("Handle" <= ls[0]) then ReadSections(ls[1..])
    else if |ls| < 2 || HandleType(ls[0]).None? then None
    else
      var body := ReadBody(ls[2..], SubSection(ls[1], map[]));
      if body.Malformed? then None
      else
        var more := ReadSections(if body.rest == [] then [] else body.rest[1..]);
        if more.None? then None
        else Some([Section(ls[0], HandleType(ls[0]).value, body.subs)] + more.value)
  }

  datatype Dmi = Dmi(aggregator: string, sections: seq<Section>)

  /** The aggregator line, if it comes before the first section, and the lines after it. */
  function Tooling(ls: seq<string>): (string, seq<string>) {
    if ls == [] then ("", [])
    else if "Handle" <= ls[0] then ("", ls)
    else if "#" <= ls[0] then (TrimSpace(ls[0][1..]), ls[1..])
    else Tooling(ls[1..])
  }

  function ParseLines(ls: seq<string>): Option<Dmi> {
    var (aggregator, rest) := Tooling(ls);
    var sections := ReadSections(rest);
    if sections.None? then None
    else Some(Dmi(if aggregator == "" then "unknown" else aggregator, sections.value))
  }

  // ---------------------------------------------------------------- the loops

  method ReadList(lines: seq<string>, start: nat) returns (items: seq<string>, next: nat)
    requires start < |lines|
    ensures
      var n := ListLength(lines[start..], Level(lines[start]));
      && n >= 1 && items == Trimmed(lines[start..start + n])
      && next == if start + n < |lines| then start + n - 1 else |lines|
  {
    var level := Level(lines[start]);
    ghost var n := ListLength(lines[start..], level);
    items := [];
    var i := start;
    while i < |lines|
      invariant start <= i <= start + n
      invariant items == Trimmed(lines[start..i])
    {
      if Level(lines[i]) < level { return items, i - 1; }
      ListLengthAt(lines, start, i, level);
      TrimmedNext(lines, start, i);
      items := items + [TrimSpace(lines[i])];
      i := i + 1;
    }
    return items, i;
  }

  lemma TrimmedNext(lines: seq<string>, start: nat, i: nat)
    requires start <= i < |lines|
    ensures Trimmed(lines[start..i + 1]) == Trimmed(lines[start..i]) + [TrimSpace(lines[i])]
  {
    assert lines[start..i + 1][..i - start] == lines[start..i];
  }

  lemma ListLengthAt(lines: seq<string>, start: nat, i: nat, level: nat)
    requires start <= i < |lines| && i <= start + ListLength(lines[start..], level) && Level(lines[i]) >= level
    ensures i < start + ListLength(lines[start..], level)
  {
    assert lines[start..][i - start] == lines[i];
  }

  /** The lines from a position on; a position may be one past the end of the lines. */
  function Suffix(lines: seq<string>, i: nat): seq<string> {
    if i <= |lines| then lines[i..] else []
  }

  /** Whether the line after line `i` opens a list. */
  predicate OpensList(lines: seq<string>, i: nat)
    requires i < |lines|
  {
    |lines| > i + 1 && Level(lines[i + 1]) > Level(lines[i])
  }

  /** Reads the items after the property on line `i`, and gives the last line that was read. */
  method ReadItems(lines: seq<string>, i: nat) returns (items: seq<string>, last: nat)
    requires i < |lines|
    ensures i <= last <= |lines|
    ensures items == Trimmed(lines[i..][1..ItemCount(lines[i..]) + 1])
    ensures Suffix(lines, last + 1) == lines[i..][ItemCount(lines[i..]) + 1..]
  {
    ItemsAt(lines, i);
    if OpensList(lines, i) {
      items, last := ReadList(lines, i + 1);
    } else {
      items, last := [], i;
    }
  }

  /** Reads the property on line `i` with its items into `sub`. */
  method ReadProperty(lines: seq<string>, i: nat, sub: SubSection) returns (ok: bool, sub': SubSection, next: nat)
    requires i < |lines|
    ensures i < next && (ok <==> KeyValue(lines[i]).Some?)
    ensures ok ==> sub' == WithProperty(sub, KeyValue(lines[i]).value, Trimmed(lines[i..][1..ItemCount(lines[i..]) + 1]))
    ensures ok ==> Suffix(lines, next) == lines[i..][ItemCount(lines[i..]) + 1..]
  {
    var kv := KeyValue(lines[i]);
    if kv.None? { return false, sub, i + 1; }
    var items, last := ReadItems(lines, i);
    sub' := WithProperty(sub, kv.value, items);
    return true, sub', last + 1;
  }

  function WithProperty(sub: SubSection, kv: (string, string), items: seq<string>): SubSection {
    sub.(properties := sub.properties[kv.0 := Property(kv.1, items)])
  }

  lemma StepProperty(lines: seq<string>, i: nat, sub: SubSection, sub': SubSection, next: nat)
    requires i < |lines| && lines[i] != "" && !Blank(lines[i]) && IsSpace(lines[i][0])
    requires KeyValue(lines[i]).Some? ==>
               && sub' == WithProperty(sub, KeyValue(lines[i]).value, Trimmed(lines[i..][1..ItemCount(lines[i..]) + 1]))
               && Suffix(lines, next) == lines[i..][ItemCount(lines[i..]) + 1..]
    ensures ReadBody(Suffix(lines, i), sub) ==
      if KeyValue(lines[i]).None? then Malformed else ReadBody(Suffix(lines, next), sub')
  {
    BodyOfProperty(lines[i..], sub);
  }

  lemma BodyOfProperty(ls: seq<string>, sub: SubSection)
    requires ls != [] && ls[0] != "" && !Blank(ls[0]) && IsSpace(ls[0][0])
    ensures ReadBody(ls, sub) ==
      if KeyValue(ls[0]).None? then Malformed
      else ReadBody(ls[ItemCount(ls) + 1..],
                    WithProperty(sub, KeyValue(ls[0]).value, Trimmed(ls[1..ItemCount(ls) + 1])))
  {
  }

  /** Reads a title, which ends the part `sub`, or a property of that part. */
  method ReadLine(lines: seq<string>, i: nat, subs: seq<SubSection>, sub: SubSection)
    returns (ok: bool, subs': seq<SubSection>, sub': SubSection, next: nat)
    requires i < |lines| && lines[i] != "" && !Blank(lines[i])
    ensures i < next
    ensures ok ==> Prepended(subs, ReadBody(Suffix(lines, i), sub)) == Prepended(subs', ReadBody(Suffix(lines, next), sub'))
    ensures !ok ==> ReadBody(Suffix(lines, i), sub) == Malformed
  {
    if IsSpace(lines[i][0]) {
      ok, sub', next := ReadProperty(lines, i, sub);
      StepProperty(lines, i, sub, sub', next);
      subs' := subs;
    } else {
      StepTitle(lines, i, sub);
      PrependedMore(subs, sub, ReadBody(Suffix(lines, i + 1), SubSection(lines[i], map[])));
      return true, subs + [sub], SubSection(lines[i], map[]), i + 1;
    }
  }

  /** Reads the parts of a section from position `start` on, the first of them titled `title`. */
  method ReadSubSections(lines: seq<string>, start: nat, title: string)
    returns (ok: bool, subs: seq<SubSection>, next: nat)
    requires start <= |lines|
    ensures
      var body := ReadBody(lines[start..], SubSection(title, map[]));
      && (ok <==> body.Body?)
      && (ok ==> subs == body.subs && start <= next && body.rest == Suffix(lines, next))
  {
    var sub := SubSection(title, map[]);
    subs := [];
    var i := start;
    ghost var whole := ReadBody(lines[start..], sub);
    assert Prepended([], whole) == whole;
    while i < |lines|
      invariant start <= i
      invariant whole == Prepended(subs, ReadBody(Suffix(lines, i), sub))
      decreases |lines| - i
    {
      var line := lines[i];
      if line == "" || Blank(line) { return true, subs + [sub], i; }
      ok, subs, sub, i := ReadLine(lines, i, subs, sub);
      if !ok { return false, [], 0; }
    }
    return true, subs + [sub], i;
  }

  lemma StepTitle(lines: seq<string>, i: nat, sub: SubSection)
    requires i < |lines| && lines[i] != "" && !Blank(lines[i]) && !IsSpace(lines[i][0])
    ensures ReadBody(Suffix(lines, i), sub)
         == ReadBody(Suffix(lines, i + 1), SubSection(lines[i], map[])).Prepend(sub)
  {
    assert lines[i..][1..] == lines[i + 1..];
  }

  function Prepended(subs: seq<SubSection>, body: Body): Body {
    if body.Malformed? then Malformed else Body(subs + body.subs, body.rest)
  }

  lemma PrependedMore(subs: seq<SubSection>, sub: SubSection, body: Body)
    ensures Prepended(subs, body.Prepend(sub)) == Prepended(subs + [sub], body)
  {
    if body.Body? {
      assert subs + ([sub] + body.subs) == subs + [sub] + body.subs;
    }
  }

  /** The list after the property on line `i`, by position. */
  lemma ItemsAt(lines: seq<string>, i: nat)
    requires i < |lines|
    ensures
      var n := ItemCount(lines[i..]);
      && i + n < |lines| && lines[i..][1..n + 1] == lines[i + 1..i + 1 + n] && lines[i..][n + 1..] == lines[i + n + 1..]
      && n == if OpensList(lines, i) then ListLength(lines[i + 1..], Level(lines[i + 1])) else 0
  {
    var ls := lines[i..];
    assert ls[1..] == lines[i + 1..];
    if |lines| > i + 1 {
      assert ls[1] == lines[i + 1];
    }
  }

  /** Reads the section whose handle is on line `start`; `next` is the line it stops at. */
  method ReadSection(lines: seq<string>, start: nat) returns (section: Option<Section>, next: nat)
    requires start < |lines| && "Handle" <= lines[start]
    ensures
      var ls := lines[start..];
      section == if |ls| < 2 || HandleType(ls[0]).None? then None
                 else SectionOf(ls[0], ReadBody(ls[2..], SubSection(ls[1], map[])))
    ensures section.Some? ==>
      && start + 2 <= |lines| && start + 2 <= next
      && ReadBody(lines[start..][2..], SubSection(lines[start..][1], map[])).rest == Suffix(lines, next)
  {
    if start + 2 > |lines| { return None, 0; }
    var kind := HandleType(lines[start]);
    if kind.None? { return None, 0; }
    assert lines[start..][2..] == lines[start + 2..];
    var ok, subs, end := ReadSubSections(lines, start + 2, lines[start + 1]);
    if !ok { return None, 0; }
    return Some(Section(lines[start], kind.value, subs)), end;
  }

  function SectionOf(handle: string, body: Body): Option<Section>
    requires HandleType(handle).Some?
  {
    if body.Malformed? then None else Some(Section(handle, HandleType(handle).value, body.subs))
  }

  /** The position and the text of the aggregator line. */
  method ReadTooling(lines: seq<string>) returns (aggregator: string, start: nat)
    ensures start <= |lines| && Tooling(lines) == (aggregator, lines[start..])
  {
    start := 0;
    aggregator := "";
    while start < |lines|
      invariant start <= |lines|
      invariant Tooling(lines) == Tooling(lines[start..])
    {
      assert lines[start..][1..] == lines[start + 1..];
      if "Handle" <= lines[start] { return; }
      if "#" <= lines[start] {
        return TrimSpace(lines[start][1..]), start + 1;
      }
      start := start + 1;
    }
  }

  method ParseDmi(lines: seq<string>) returns (dmi: Option<Dmi>)
    ensures dmi == ParseLines(lines)
  {
    var aggregator, start := ReadTooling(lines);
    var sections := ReadAll(lines, start);
    if sections.None? { return None; }
    return Some(Dmi(if aggregator == "" then "unknown" else aggregator, sections.value));
  }

  method ReadNext(lines: seq<string>, start: nat) returns (section: Option<Section>, next: nat)
    requires start < |lines| && "Handle" <= lines[start]
    ensures section.Some? ==> start < next
    ensures ReadSections(Suffix(lines, start)) ==
      if section.None? then None else Following([section.value], ReadSections(Suffix(lines, next + 1)))
  {
    section, next := ReadSection(lines, start);
    StepSection(lines, start, section, next);
  }

  lemma StepLine(lines: seq<string>, start: nat)
    requires start < |lines| && !("Handle" <= lines[start])
    ensures ReadSections(Suffix(lines, start)) == ReadSections(Suffix(lines, start + 1))
  {
    assert lines[start..][1..] == lines[start + 1..];
  }

  /** What is read up to position `next`, in front of what follows it, is what is read from `start` on. */
  ghost predicate Reads(lines: seq<string>, start: nat, read: seq<Section>, ok: bool, read': seq<Section>, next: nat) {
    if ok then
      && start <= next
      && Following(read, ReadSections(Suffix(lines, start))) == Following(read', ReadSections(Suffix(lines, next + 1)))
    else ReadSections(Suffix(lines, start)) == None
  }

  lemma ReadsSection(lines: seq<string>, start: nat, read: seq<Section>, section: Option<Section>, next: nat)
    requires section.Some? ==> start < next
    requires ReadSections(Suffix(lines, start)) ==
      if section.None? then None else Following([section.value], ReadSections(Suffix(lines, next + 1)))
    ensures section.None? ==> Reads(lines, start, read, false, read, next)
    ensures section.Some? ==> Reads(lines, start, read, true, read + [section.value], next)
  {
    if section.Some? {
      FollowingMore(read, section.value, ReadSections(Suffix(lines, next + 1)));
    }
  }

  lemma ReadsLine(lines: seq<string>, start: nat, read: seq<Section>)
    requires start < |lines| && !("Handle" <= lines[start])
    ensures Reads(lines, start, read, true, read, start)
  {
    StepLine(lines, start);
  }

  /** One round of the reading: a whole section, or a line outside one. */
  method ReadOne(lines: seq<string>, start: nat, read: seq<Section>)
    returns (ok: bool, read': seq<Section>, next: nat)
    requires start < |lines|
    ensures Reads(lines, start, read, ok, read', next)
  {
    if "Handle" <= lines[start] {
      var section;
      section, next := ReadNext(lines, start);
      ReadsSection(lines, start, read, section, next);
      if section.None? { return false, read, next; }
      return true, read + [section.value], next;
    }
    ReadsLine(lines, start, read);
    return true, read, start;
  }

  method ReadAll(lines: seq<string>, from: nat) returns (sections: Option<seq<Section>>)
    requires from <= |lines|
    ensures sections == ReadSections(Suffix(lines, from))
  {
    var read: seq<Section> := [];
    var start := from;
    ghost var whole := ReadSections(Suffix(lines, from));
    FollowingNothing(whole);
    while start < |lines|
      invariant Following(read, ReadSections(Suffix(lines, start))) == whole
      decreases |lines| - start
    {
      var ok;
      ok, read, start := ReadOne(lines, start, read);
      if !ok { return None; }
      start := start + 1;
    }
    FollowingEnd(lines, start, read);
    return Some(read);
  }

  function Following(read: seq<Section>, more: Option<seq<Section>>): Option<seq<Section>> {
    if more.None? then None else Some(read + more.value)
  }

  lemma FollowingEnd(lines: seq<string>, start: nat, read: seq<Section>)
    requires start >= |lines|
    ensures Following(read, ReadSections(Suffix(lines, start))) == Some(read)
  {
    assert Suffix(lines, start) == [] && read + [] == read;
  }

  lemma FollowingNothing(more: Option<seq<Section>>)
    ensures Following([], more) == more
  {
    if more.Some? {
      assert [] + more.value == more.value;
    }
  }

  lemma FollowingMore(read: seq<Section>, s: Section, more: Option<seq<Section>>)
    ensures Following(read, Following([s], more)) == Following(read + [s], more)
  {
    if more.Some? {
      assert read + ([s] + more.value) == read + [s] + more.value;
    }
  }

  lemma StepSection(lines: seq<string>, start: nat, section: Option<Section>, next: nat)
    requires start < |lines| && "Handle" <= lines[start]
    requires
      var ls := lines[start..];
      section == if |ls| < 2 || HandleType(ls[0]).None? then None
                 else SectionOf(ls[0], ReadBody(ls[2..], SubSection(ls[1], map[])))
    requires section.Some? ==>
      && start + 2 <= |lines| && start + 2 <= next
      && ReadBody(lines[start..][2..], SubSection(lines[start..][1], map[])).rest == Suffix(lines, next)
    ensures ReadSections(lines[start..]) ==
      if section.None? then None else Following([section.value], ReadSections(Suffix(lines, next + 1)))
  {
    if section.Some? {
      var rest := Suffix(lines, next);
      assert (if rest == [] then [] else rest[1..]) == Suffix(lines, next + 1);
    }
  }

  /** A list ends before the first blank line. */
  lemma ListsEndAtBlankLines(ls: seq<string>, j: nat)
    requires ls != [] && j < |ls| && Blank(ls[j]) && Level(ls[0]) > 0
    ensures ListLength(ls, Level(ls[0])) <= j
  {
    BlankHasNoLevel(ls[j]);
  }

  lemma BlankHasNoLevel(s: string)
    requires Blank(s)
    ensures Level(s) == 0
  {
    if !(forall k :: 0 <= k < |s| ==> IsSpace(s[k])) {
      var k :| 0 <= k < |s| && !IsSpace(s[k]);
      TrimKeeps(s, k);
    }
    AllSpaceLevel(s, 0);
  }

  lemma {:induction false} AllSpaceLevel(s: string, i: nat)
    requires i <= |s| && forall k :: 0 <= k < |s| ==> IsSpace(s[k])
    ensures LevelFrom(s, i) == 0
    decreases |s| - i
  {
    if i < |s| {
      AllSpaceLevel(s, i + 1);
    }
  }

  lemma {:induction false} TrimKeeps(s: string, k: nat)
    requires k < |s| && !IsSpace(s[k])
    ensures TrimSpace(s) != ""
    decreases |s|
  {
    if IsSpace(s[0]) {
      TrimKeeps(s[1..], k - 1);
    } else {
      TrimRightKeeps(s);
    }
  }

  lemma {:induction false} TrimRightKeeps(s: string)
    requires s != "" && !IsSpace(s[0])
    ensures TrimRight(s) != ""
    decreases |s|
  {
    if IsSpace(s[|s| - 1]) {
      TrimRightKeeps(s[..|s| - 1]);
    }
  }
}
