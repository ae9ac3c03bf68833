/**
Printing sections the way dmidecode does, and the proof that parsing undoes it.
*/
module DmiRoundTrip {
  import opened Options
  import opened Dmi

  datatype Entry = Entry(key: string, val: string, items: seq<string>)
  datatype Part = Part(title: string, entries: seq<Entry>)
  datatype Record = Record(handle: string, parts: seq<Part>)

  // ---------------------------------------------------------------- printing

  function EntryLine(e: Entry): string {
    "\t" + e.key + ": " + e.val
  }

  function ItemLine(item: string): string {
    "\t\t" + item
  }

  function ItemLines(items: seq<string>): (ls: seq<string>)
    ensures |ls| == |items|
  {
    if items == [] then [] else [ItemLine(items[0])] + ItemLines(items[1..])
  }

  function PrintEntries(es: seq<Entry>): seq<string> {
    if es == [] then [] else [EntryLine(es[0])] + ItemLines(es[0].items) + PrintEntries(es[1..])
  }

  function PrintParts(ps: seq<Part>): seq<string> {
    if ps == [] then [] else [ps[0].title] + PrintEntries(ps[0].entries) + PrintParts(ps[1..])
  }

  function PrintRecords(rs: seq<Record>): seq<string> {
    if rs == [] then [] else [rs[0].handle] + PrintParts(rs[0].parts) + [""] + PrintRecords(rs[1..])
  }

  function Print(aggregator: string, rs: seq<Record>): seq<string> {
    ["# " + aggregator] + [""] + PrintRecords(rs)
  }

  // ---------------------------------------------------------------- what is printed

  function Meaning(es: seq<Entry>, properties: map<string, Property>): map<string, Property> {
    if es == [] then properties
    else Meaning(es[1..], properties[es[0].key := Property(es[0].val, es[0].items)])
  }

  function PartsMeaning(ps: seq<Part>): seq<SubSection> {
    if ps == [] then []
    else [SubSection(ps[0].title, Meaning(ps[0].entries, map[]))] + PartsMeaning(ps[1..])
  }

  function RecordsMeaning(rs: seq<Record>): seq<Section>
    requires GoodRecords(rs)
  {
    if rs == [] then []
    else [Section(rs[0].handle, HandleType(rs[0].handle).value, PartsMeaning(rs[0].parts))] + RecordsMeaning(rs[1..])
  }

  // ---------------------------------------------------------------- well-formed text

  /** No white space at either end. */
  predicate Tidy(s: string) {
    s == "" || (!IsSpace(s[0]) && !IsSpace(s[|s| - 1]))
  }

  predicate GoodEntry(e: Entry) {
    Tidy(e.key) && ':' !in e.key && Tidy(e.val) && forall i :: 0 <= i < |e.items| ==> e.items[i] != "" && Tidy(e.items[i])
  }

  predicate GoodPart(p: Part) {
    p.title != "" && !IsSpace(p.title[0]) && forall i :: 0 <= i < |p.entries| ==> GoodEntry(p.entries[i])
  }

  predicate GoodRecord(r: Record) {
    "Handle" <= r.handle && HandleType(r.handle).Some? && r.parts != []
    && forall i :: 0 <= i < |r.parts| ==> GoodPart(r.parts[i])
  }

  predicate GoodRecords(rs: seq<Record>) {
    forall i :: 0 <= i < |rs| ==> GoodRecord(rs[i])
  }

  // ---------------------------------------------------------------- lines

  lemma TrimSpaceFront(c: char, s: string)
    requires IsSpace(c)
    ensures TrimSpace([c] + s) == TrimSpace(s)
  {
    assert ([c] + s)[1..] == s;
  }

  lemma TrimTidy(s: string)
    requires Tidy(s)
    ensures TrimSpace(s) == s
  {
  }

  /** Text that begins with a visible character is not blank. */
  lemma VisibleIsNotBlank(s: string, k: nat)
    requires k < |s| && !IsSpace(s[k])
    ensures !Blank(s)
  {
    TrimKeeps(s, k);
  }

  lemma EntryLineIsProperty(e: Entry)
    requires GoodEntry(e)
    ensures
      var line := EntryLine(e);
      && line != "" && IsSpace(line[0]) && !Blank(line) && Level(line) == 1
      && KeyValue(line) == Some((e.key, e.val))
  {
    var line := EntryLine(e);
    var k := 1 + |e.key|;
    assert line == ['\t'] + e.key + [':', ' '] + e.val;
    assert !IsSpace(line[1]) by {
      if e.key != "" { assert line[1] == e.key[0]; }
    }
    VisibleIsNotBlank(line, 1);
    assert line[k] == ':';
    assert forall j :: 1 <= j < k ==> line[j] == e.key[j - 1] != ':';
    assert Colon(line, 1) == k;
    assert line[..k] == ['\t'] + e.key;
    assert line[k + 1..] == [' '] + e.val;
    TrimSpaceFront('\t', e.key);
    TrimSpaceFront(' ', e.val);
    TrimTidy(e.key);
    TrimTidy(e.val);
    assert LevelFrom(line, 0) == LevelFrom(line, 1) == 1;
  }

  lemma ItemLineIsItem(item: string)
    requires item != "" && Tidy(item)
    ensures Level(ItemLine(item)) == 2 && TrimSpace(ItemLine(item)) == item
  {
    var line := ItemLine(item);
    assert line == ['\t'] + (['\t'] + item);
    TrimSpaceFront('\t', ['\t'] + item);
    TrimSpaceFront('\t', item);
    TrimTidy(item);
    assert !IsSpace(line[2]);
    assert LevelFrom(line, 0) == LevelFrom(line, 1) == LevelFrom(line, 2) == 2;
  }

  lemma TitleIsTitle(title: string)
    requires title != "" && !IsSpace(title[0])
    ensures !Blank(title) && Level(title) == 0
  {
    VisibleIsNotBlank(title, 0);
  }

  // ---------------------------------------------------------------- lists

  /** What follows is not indented as far as an item. */
  predicate Shallow(tail: seq<string>) {
    tail == [] || Level(tail[0]) <= 1
  }

  lemma ListGrows(line: string, rest: seq<string>, level: nat)
    requires Level(line) >= level
    ensures ListLength([line] + rest, level) == 1 + ListLength(rest, level)
  {
    assert ([line] + rest)[1..] == rest;
  }

  lemma {:induction false} ListIsItems(items: seq<string>, tail: seq<string>)
    requires (forall i :: 0 <= i < |items| ==> items[i] != "" && Tidy(items[i])) && Shallow(tail)
    ensures ListLength(ItemLines(items) + tail, 2) == |items|
    decreases |items|
  {
    if items == [] {
      assert ItemLines(items) + tail == tail;
    } else {
      var rest := ItemLines(items[1..]) + tail;
      assert ItemLines(items) + tail == [ItemLine(items[0])] + rest;
      ItemLineIsItem(items[0]);
      ListGrows(ItemLine(items[0]), rest, 2);
      ListIsItems(items[1..], tail);
    }
  }

  lemma TrimmedAppend(ls: seq<string>, line: string)
    ensures Trimmed(ls + [line]) == Trimmed(ls) + [TrimSpace(line)]
  {
    assert (ls + [line])[..|ls|] == ls;
  }

  lemma {:induction false} ItemLinesAppend(items: seq<string>, item: string)
    ensures ItemLines(items + [item]) == ItemLines(items) + [ItemLine(item)]
    decreases |items|
  {
    if items != [] {
      ItemLinesAppend(items[1..], item);
      assert (items + [item])[1..] == items[1..] + [item];
    }
  }

  lemma {:induction false} TrimmedItems(items: seq<string>)
    requires forall i :: 0 <= i < |items| ==> items[i] != "" && Tidy(items[i])
    ensures Trimmed(ItemLines(items)) == items
    decreases |items|
  {
    if items != [] {
      var (init, last) := (items[..|items| - 1], items[|items| - 1]);
      TrimmedItems(init);
      assert items == init + [last];
      ItemLinesAppend(init, last);
      TrimmedAppend(ItemLines(init), ItemLine(last));
      ItemLineIsItem(last);
    }
  }

  // ---------------------------------------------------------------- entries

  lemma EntryItems(e: Entry, tail: seq<string>)
    requires GoodEntry(e) && Shallow(tail)
    ensures
      var ls := [EntryLine(e)] + ItemLines(e.items) + tail;
      && ItemCount(ls) == |e.items|
      && ls[1..|e.items| + 1] == ItemLines(e.items) && ls[|e.items| + 1..] == tail
  {
    var ls := [EntryLine(e)] + ItemLines(e.items) + tail;
    assert ls[1..] == ItemLines(e.items) + tail;
    EntryLineIsProperty(e);
    ListIsItems(e.items, tail);
    if e.items != [] {
      ItemLineIsItem(e.items[0]);
      assert ls[1] == ItemLine(e.items[0]);
    }
  }

  /** Reading one printed entry adds it to the open part. */
  lemma ReadEntry(e: Entry, tail: seq<string>, sub: SubSection)
    requires GoodEntry(e) && Shallow(tail)
    ensures ReadBody([EntryLine(e)] + ItemLines(e.items) + tail, sub)
         == ReadBody(tail, WithProperty(sub, (e.key, e.val), e.items))
  {
    EntryLineIsProperty(e);
    EntryItems(e, tail);
    TrimmedItems(e.items);
    BodyOfProperty([EntryLine(e)] + ItemLines(e.items) + tail, sub);
  }

  lemma EntriesShallow(es: seq<Entry>, tail: seq<string>)
    requires (forall i :: 0 <= i < |es| ==> GoodEntry(es[i])) && Shallow(tail)
    ensures Shallow(PrintEntries(es) + tail)
  {
    if es == [] {
      assert PrintEntries(es) + tail == tail;
    } else {
      EntryLineIsProperty(es[0]);
    }
  }

  lemma {:induction false} ReadEntries(es: seq<Entry>, tail: seq<string>, sub: SubSection)
    requires (forall i :: 0 <= i < |es| ==> GoodEntry(es[i])) && Shallow(tail)
    ensures ReadBody(PrintEntries(es) + tail, sub)
         == ReadBody(tail, sub.(properties := Meaning(es, sub.properties)))
    decreases |es|
  {
    if es == [] {
      assert PrintEntries(es) + tail == tail;
    } else {
      var rest := PrintEntries(es[1..]) + tail;
      EntriesShallow(es[1..], tail);
      assert PrintEntries(es) + tail == [EntryLine(es[0])] + ItemLines(es[0].items) + rest;
      ReadEntry(es[0], rest, sub);
      ReadEntries(es[1..], tail, WithProperty(sub, (es[0].key, es[0].val), es[0].items));
    }
  }

  // ---------------------------------------------------------------- parts

  lemma PartsShallow(ps: seq<Part>, tail: seq<string>)
    requires forall i :: 0 <= i < |ps| ==> GoodPart(ps[i])
    ensures Shallow(PrintParts(ps) + ([""] + tail))
  {
    if ps != [] {
      TitleIsTitle(ps[0].title);
    }
  }

  lemma Regroup<T>(a: seq<T>, b: seq<T>, c: seq<T>, d: seq<T>)
    ensures a + b + c + d == a + (b + (c + d))
  {
  }

  lemma PartsFirst(ps: seq<Part>, tail: seq<string>)
    requires ps != []
    ensures PrintParts(ps) + tail == [ps[0].title] + (PrintEntries(ps[0].entries) + (PrintParts(ps[1..]) + tail))
  {
    Regroup([ps[0].title], PrintEntries(ps[0].entries), PrintParts(ps[1..]), tail);
  }

  /** One part, whatever follows it. */
  lemma ReadPart(p: Part, rest: seq<string>, sub: SubSection)
    requires GoodPart(p) && Shallow(rest)
    ensures ReadBody([p.title] + (PrintEntries(p.entries) + rest), sub)
         == ReadBody(rest, SubSection(p.title, Meaning(p.entries, map[]))).Prepend(sub)
  {
    var ls := [p.title] + (PrintEntries(p.entries) + rest);
    TitleIsTitle(p.title);
    assert ls[1..] == PrintEntries(p.entries) + rest;
    ReadEntries(p.entries, rest, SubSection(p.title, map[]));
  }

  /** The parts of a section, up to the blank line that ends it. */
  lemma {:induction false} ReadParts(ps: seq<Part>, tail: seq<string>, sub: SubSection)
    requires forall i :: 0 <= i < |ps| ==> GoodPart(ps[i])
    ensures ReadBody(PrintParts(ps) + ([""] + tail), sub) == Body([sub] + PartsMeaning(ps), [""] + tail)
    decreases |ps|
  {
    var blank := [""] + tail;
    if ps == [] {
      assert PrintParts(ps) + blank == blank;
      assert [sub] + PartsMeaning(ps) == [sub];
    } else {
      var p := ps[0];
      var rest := PrintParts(ps[1..]) + blank;
      PartsShallow(ps[1..], tail);
      ReadPart(p, rest, sub);
      ReadParts(ps[1..], tail, SubSection(p.title, Meaning(p.entries, map[])));
      PartsFirst(ps, blank);
    }
  }

  // ---------------------------------------------------------------- sections

  /** A printed section is read back, up to and including the blank line. */
  lemma ReadRecord(r: Record, tail: seq<string>)
    requires GoodRecord(r)
    ensures
      var ls := [r.handle] + PrintParts(r.parts) + [""] + tail;
      && |ls| >= 2 && ls[0] == r.handle
      && ReadBody(ls[2..], SubSection(ls[1], map[])) == Body(PartsMeaning(r.parts), [""] + tail)
  {
    var p := r.parts[0];
    var ls := [r.handle] + PrintParts(r.parts) + [""] + tail;
    var rest := PrintParts(r.parts[1..]) + ([""] + tail);
    assert ls == [r.handle] + [p.title] + (PrintEntries(p.entries) + rest);
    assert ls[1] == p.title && ls[2..] == PrintEntries(p.entries) + rest;
    PartsShallow(r.parts[1..], tail);
    ReadEntries(p.entries, rest, SubSection(p.title, map[]));
    ReadParts(r.parts[1..], tail, SubSection(p.title, Meaning(p.entries, map[])));
  }

  lemma {:induction false} ReadRecords(rs: seq<Record>)
    requires GoodRecords(rs)
    ensures ReadSections(PrintRecords(rs)) == Some(RecordsMeaning(rs))
    decreases |rs|
  {
    if rs != [] {
      var tail := PrintRecords(rs[1..]);
      ReadRecord(rs[0], tail);
      ReadRecords(rs[1..]);
      assert ([""] + tail)[1..] == tail;
    }
  }

  lemma ReadAggregator(aggregator: string, rest: seq<string>)
    requires Tidy(aggregator)
    ensures Tooling(["# " + aggregator] + rest) == (aggregator, rest)
  {
    var first := "# " + aggregator;
    var ls := [first] + rest;
    assert first[1..] == [' '] + aggregator;
    TrimSpaceFront(' ', aggregator);
    TrimTidy(aggregator);
    assert ls[0] == first && ls[1..] == rest;
    assert first[0] == '#' && "Handle"[0] == 'H';
  }

  lemma SkipBlank(ls: seq<string>)
    ensures ReadSections([""] + ls) == ReadSections(ls)
  {
    assert ([""] + ls)[1..] == ls;
  }

  /**
   * Parsing undoes printing: for every list of well-formed sections the parser returns those
   * sections, in order, each with its titled parts and their properties and items.
   */
  lemma ParseUndoesPrint(aggregator: string, rs: seq<Record>)
    requires aggregator != "" && Tidy(aggregator) && GoodRecords(rs)
    ensures ParseLines(Print(aggregator, rs)) == Some(Dmi(aggregator, RecordsMeaning(rs)))
  {
    ReadRecords(rs);
    ReadPrinted(aggregator, PrintRecords(rs), RecordsMeaning(rs));
    PrintedLines(aggregator, rs);
  }

  lemma PrintedLines(aggregator: string, rs: seq<Record>)
    ensures Print(aggregator, rs) == ["# " + aggregator] + ([""] + PrintRecords(rs))
  {
  }

  lemma ReadPrinted(aggregator: string, records: seq<string>, sections: seq<Section>)
    requires aggregator != "" && Tidy(aggregator) && ReadSections(records) == Some(sections)
    ensures ParseLines(["# " + aggregator] + ([""] + records)) == Some(Dmi(aggregator, sections))
  {
    var rest := [""] + records;
    ReadAggregator(aggregator, rest);
    SkipBlank(records);
    Assembled(["# " + aggregator] + rest, aggregator, rest, sections);
  }

  lemma Assembled(ls: seq<string>, aggregator: string, rest: seq<string>, sections: seq<Section>)
    requires Tooling(ls) == (aggregator, rest) && aggregator != "" && ReadSections(rest) == Some(sections)
    ensures ParseLines(ls) == Some(Dmi(aggregator, sections))
  {
  }

  /** When the keys of a part are distinct, every printed entry is found under its key. */
  lemma {:induction false} EveryEntryIsKept(es: seq<Entry>, properties: map<string, Property>, i: nat)
    requires i < |es| && forall a, b :: 0 <= a < b < |es| ==> es[a].key != es[b].key
    ensures es[i].key in Meaning(es, properties)
    ensures Meaning(es, properties)[es[i].key] == Property(es[i].val, es[i].items)
    decreases |es|
  {
    var more := properties[es[0].key := Property(es[0].val, es[0].items)];
    if i == 0 {
      KeyStays(es[1..], more, es[0].key);
    } else {
      EveryEntryIsKept(es[1..], more, i - 1);
    }
  }

  lemma {:induction false} KeyStays(es: seq<Entry>, properties: map<string, Property>, key: string)
    requires key in properties && forall a :: 0 <= a < |es| ==> es[a].key != key
    ensures key in Meaning(es, properties) && Meaning(es, properties)[key] == properties[key]
    decreases |es|
  {
    if es != [] {
      KeyStays(es[1..], properties[es[0].key := Property(es[0].val, es[0].items)], key);
    }
  }
}
