/**
 The front matter of a document: a template with each value between its markers goes to the translator, and the values
 that come back are put where they belong.
 */
module FrontMatter {
  import opened FrontMarkers
  import opened GoText
  import opened TaggedDocument
  import opened Text

  // An item that is not a string is shown as it is and not translated.
  datatype Item = Words(value: string) | Other(shown: string)

  // The three entries that are translated; None if there is no string, or no list, of that name.
  datatype Data = Data(summary: Option<string>, title: Option<string>, readWhen: Option<seq<Item>>)

  // ----- the template

  datatype Entry = Marked(lead: string, mark: Mark, value: string) | Plain(text: string)

  function Line(e: Entry): string {
    match e
    case Marked(lead, mark, value) => lead + Start(mark) + value + End(mark)
    case Plain(text) => text
  }

  function LinesOf(es: seq<Entry>): seq<string> {
    if es == [] then [] else [Line(es[0])] + LinesOf(es[1..])
  }

  function MarksOf(es: seq<Entry>): seq<Mark> {
    if es == [] then []
    else if es[0].Marked? then [es[0].mark] + MarksOf(es[1..])
    else MarksOf(es[1..])
  }

  function FieldEntry(lead: string, field: Field, value: Option<string>): seq<Entry> {
    if value.Some? then [Marked(lead, Mark(field, 0), value.value)] else []
  }

  function ItemEntry(item: Item, index: nat): Entry {
    match item
    case Words(value) => Marked("  - ", Mark(ReadWhen, index), value)
    case Other(shown) => Plain("  - " + shown)
  }

  function ItemEntries(items: seq<Item>, k: nat): seq<Entry>
    requires k <= |items|
    decreases |items| - k
  {
    if k == |items| then [] else [ItemEntry(items[k], k)] + ItemEntries(items, k + 1)
  }

  function ListEntries(readWhen: Option<seq<Item>>): seq<Entry> {
    if readWhen.Some? then [Plain("read_when:")] + ItemEntries(readWhen.value, 0) else []
  }

  function Entries(d: Data): seq<Entry> {
    FieldEntry("summary: ", Summary, d.summary) + (FieldEntry("title: ", Title, d.title) + ListEntries(d.readWhen))
  }

  function Template(d: Data): string {
    JoinLines(LinesOf(Entries(d)))
  }

  lemma FirstEntry(e: Entry, es: seq<Entry>)
    ensures LinesOf([e] + es) == [Line(e)] + LinesOf(es)
    ensures MarksOf([e] + es) == (if e.Marked? then [e.mark] else []) + MarksOf(es)
  {
  }

  // ----- putting values back

  function Padded(items: seq<Item>, n: nat): seq<Item>
    decreases n - |items|
  {
    if |items| < n then Padded(items + [Words("")], n) else items
  }

  lemma {:induction false} PaddedCounts(items: seq<Item>, n: nat)
    ensures |Padded(items, n)| >= n && |Padded(items, n)| >= |items|
    ensures |items| >= n ==> Padded(items, n) == items
    decreases n - |items|
  {
    if |items| < n { PaddedCounts(items + [Words("")], n); }
  }

  function SetReadWhenValue(existing: Option<seq<Item>>, index: nat, value: string): seq<Item> {
    var items := if existing.Some? then existing.value else [];
    PaddedCounts(items, index + 1);
    Padded(items, index + 1)[index := Words(value)]
  }

  function Put(d: Data, mark: Mark, value: string): Data {
    match mark.field
    case Summary => d.(summary := Some(value))
    case Title => d.(title := Some(value))
    case ReadWhen => d.(readWhen := Some(SetReadWhenValue(d.readWhen, mark.index, value)))
  }

  // What has been put in place before a marker is missing stays there.
  datatype Applied = Applied(data: Data, error: Option<ExtractError>)

  function Apply(d: Data, marks: seq<Mark>, text: string): Applied
    decreases |marks|
  {
    if marks == [] then Applied(d, None)
    else
      match ExtractMarkerValue(text, Start(marks[0]), End(marks[0]))
      case Err(e) => Applied(d, Some(e))
      case Ok(value) => Apply(Put(d, marks[0], TrimSpace(value)), marks[1..], text)
  }

  // ----- finding the value of an entry

  lemma {:induction false} LinesAt(es: seq<Entry>)
    ensures |LinesOf(es)| == |es| && forall k :: 0 <= k < |es| ==> LinesOf(es)[k] == Line(es[k])
  {
    if es != [] { LinesAt(es[1..]); }
  }

  lemma {:induction false} ExtractLine(ls: seq<string>, i: nat, lead: string, start: string, value: string, end: string)
    requires i < |ls| && ls[i] == lead + start + value + end && IsFlat(lead) && IsMarker(start) && IsMarker(end)
    requires forall j :: 0 <= j < i ==> Index(ls[j], start).None?
    ensures ExtractMarkerValue(JoinLines(ls), start, end) == Ok(UpTo(value, end))
    decreases i
  {
    if i > 0 {
      ExtractLine(ls[1..], i - 1, lead, start, value, end);
      ExtractBehind(ls[0], JoinLines(ls[1..]), start, end);
    } else if |ls| == 1 {
      ExtractFirst(lead, start, value, end, "");
      assert ls[0] + "" == ls[0];
    } else {
      ExtractFirst(lead, start, value, end, "\n" + JoinLines(ls[1..]));
      Associates(ls[0], "\n", JoinLines(ls[1..]));
    }
  }

  lemma ExtractFirst(lead: string, start: string, value: string, end: string, rest: string)
    requires IsFlat(lead) && IsMarker(start) && IsMarker(end)
    ensures ExtractMarkerValue(lead + start + value + end + rest, start, end) == Ok(UpTo(value, end))
  {
    NotInFlat(lead, start);
    ExtractHere(lead, start, value, end, rest);
    Regrouped(lead, start, value, end, rest);
  }

  lemma Regrouped(lead: string, start: string, value: string, end: string, rest: string)
    ensures lead + start + value + end + rest == lead + start + (value + end + rest)
  {
  }

  function Body(e: Entry): string {
    match e
    case Marked(_, _, value) => value
    case Plain(text) => text
  }

  // The opening marker of an entry does not stand in any entry in front of it.
  predicate OpensFirst(es: seq<Entry>) {
    forall i, j :: 0 <= j < i < |es| && es[i].Marked? ==> Index(Body(es[j]), Start(es[i].mark)).None?
  }

  // Flat text in front of the markers, and no marker twice.
  predicate WellMarked(es: seq<Entry>) {
    && (forall i :: 0 <= i < |es| && es[i].Marked? ==> IsFlat(es[i].lead))
    && (forall i, j :: 0 <= j < i < |es| && es[i].Marked? && es[j].Marked? ==> es[i].mark != es[j].mark)
  }

  lemma NotInLine(e: Entry, mark: Mark)
    requires Index(Body(e), Start(mark)).None? && (e.Marked? ==> IsFlat(e.lead) && e.mark != mark)
    ensures Index(Line(e), Start(mark)).None?
  {
    if e.Marked? {
      var u := Start(mark);
      MarksAreMarkers(mark);
      MarksAreMarkers(e.mark);
      MarksDiffer(mark, e.mark);
      NotInFlat(e.lead, u);
      NotInFlat("", u);
      NotFoundAround(e.lead, Start(e.mark), e.value, u);
      NotFoundAround(e.lead + Start(e.mark) + e.value, End(e.mark), "", u);
      assert Line(e) + "" == Line(e);
    }
  }

  lemma ExtractEntry(es: seq<Entry>, i: nat)
    requires OpensFirst(es) && WellMarked(es) && i < |es| && es[i].Marked?
    ensures IsFoundIn(es[i], JoinLines(LinesOf(es)))
  {
    var e := es[i];
    LinesAt(es);
    MarksAreMarkers(e.mark);
    forall j | 0 <= j < i ensures Index(LinesOf(es)[j], Start(e.mark)).None? { NotInLine(es[j], e.mark); }
    ExtractLine(LinesOf(es), i, e.lead, Start(e.mark), e.value, End(e.mark));
  }

  // ----- putting all values back

  predicate IsFoundIn(e: Entry, text: string) {
    e.Marked? ==> ExtractMarkerValue(text, Start(e.mark), End(e.mark)) == Ok(UpTo(e.value, End(e.mark)))
  }

  // The value that is found for an entry.
  function Found(mark: Mark, value: string): string {
    TrimSpace(UpTo(value, End(mark)))
  }

  function PutAll(d: Data, es: seq<Entry>): Data
    decreases |es|
  {
    if es == [] then d
    else PutAll(if es[0].Marked? then Put(d, es[0].mark, Found(es[0].mark, es[0].value)) else d, es[1..])
  }

  lemma {:induction false} ApplyPuts(d: Data, es: seq<Entry>, text: string)
    requires forall i :: 0 <= i < |es| ==> IsFoundIn(es[i], text)
    ensures Apply(d, MarksOf(es), text) == Applied(PutAll(d, es), None)
    decreases |es|
  {
    if es != [] {
      var e := es[0];
      assert IsFoundIn(e, text);
      ApplyPuts(if e.Marked? then Put(d, e.mark, Found(e.mark, e.value)) else d, es[1..], text);
    }
  }

  // ----- the entries of a document

  lemma {:induction false} ItemEntryAt(items: seq<Item>, k: nat, i: nat)
    requires k + i <= |items|
    ensures |ItemEntries(items, k)| == |items| - k
    ensures k + i < |items| ==> ItemEntries(items, k)[i] == ItemEntry(items[k + i], k + i)
    decreases |items| - k
  {
    if k < |items| { ItemEntryAt(items, k + 1, if i == 0 then 0 else i - 1); }
  }

  predicate OnlyField(es: seq<Entry>, fields: set<Field>) {
    forall i :: 0 <= i < |es| && es[i].Marked? ==> es[i].mark.field in fields
  }

  lemma WellMarkedTogether(es: seq<Entry>, fs: seq<Entry>, fields: set<Field>, others: set<Field>)
    requires WellMarked(es) && WellMarked(fs) && OnlyField(es, fields) && OnlyField(fs, others) && fields !! others
    ensures WellMarked(es + fs) && OnlyField(es + fs, fields + others)
  {
    var gs := es + fs;
    forall i, j | 0 <= j < i < |gs| && gs[i].Marked? && gs[j].Marked?
      ensures gs[i].mark != gs[j].mark
    {
      if i >= |es| {
        assert gs[i] == fs[i - |es|] && gs[i].mark.field in others;
        if j < |es| { assert gs[j] == es[j] && gs[j].mark.field in fields; }
      }
    }
  }

  lemma ListIsWellMarked(readWhen: Option<seq<Item>>)
    ensures WellMarked(ListEntries(readWhen)) && OnlyField(ListEntries(readWhen), {ReadWhen})
  {
    if readWhen.Some? {
      var items, es := readWhen.value, ItemEntries(readWhen.value, 0);
      ItemEntryAt(items, 0, |items|);
      forall i | 0 <= i < |es| ensures es[i] == ItemEntry(items[i], i) { ItemEntryAt(items, 0, i); }
    }
  }

  lemma EntriesAreWellMarked(d: Data)
    ensures WellMarked(Entries(d))
  {
    var es, fs := FieldEntry("summary: ", Summary, d.summary), FieldEntry("title: ", Title, d.title);
    ListIsWellMarked(d.readWhen);
    WellMarkedTogether(fs, ListEntries(d.readWhen), {Title}, {ReadWhen});
    WellMarkedTogether(es, fs + ListEntries(d.readWhen), {Summary}, {Title, ReadWhen});
  }

  // What a translator that keeps the markers and their order gives back: other values in the same places.
  predicate SameShape(d: Data, said: Data) {
    && d.summary.Some? == said.summary.Some? && d.title.Some? == said.title.Some?
    && d.readWhen.Some? == said.readWhen.Some?
    && (d.readWhen.Some? ==> SameItems(d.readWhen.value, said.readWhen.value))
  }

  predicate SameItems(items: seq<Item>, said: seq<Item>) {
    && |items| == |said|
    && forall k :: 0 <= k < |items| ==> items[k] == said[k] || (items[k].Words? && said[k].Words?)
  }

  lemma {:induction false} SameItemMarks(items: seq<Item>, said: seq<Item>, k: nat)
    requires SameItems(items, said) && k <= |items|
    ensures MarksOf(ItemEntries(items, k)) == MarksOf(ItemEntries(said, k))
    decreases |items| - k
  {
    if k < |items| {
      SameItemMarks(items, said, k + 1);
      FirstEntry(ItemEntry(items[k], k), ItemEntries(items, k + 1));
      FirstEntry(ItemEntry(said[k], k), ItemEntries(said, k + 1));
    }
  }

  lemma SameListMarks(items: Option<seq<Item>>, said: Option<seq<Item>>)
    requires items.Some? == said.Some? && (items.Some? ==> SameItems(items.value, said.value))
    ensures MarksOf(ListEntries(items)) == MarksOf(ListEntries(said))
  {
    if items.Some? {
      SameItemMarks(items.value, said.value, 0);
      FirstEntry(Plain("read_when:"), ItemEntries(items.value, 0));
      FirstEntry(Plain("read_when:"), ItemEntries(said.value, 0));
    }
  }

  lemma SameFieldMarks(lead: string, field: Field, value: Option<string>, said: Option<string>, es: seq<Entry>,
                       fs: seq<Entry>)
    requires value.Some? == said.Some? && MarksOf(es) == MarksOf(fs)
    ensures MarksOf(FieldEntry(lead, field, value) + es) == MarksOf(FieldEntry(lead, field, said) + fs)
  {
    if value.Some? {
      FirstEntry(Marked(lead, Mark(field, 0), value.value), es);
      FirstEntry(Marked(lead, Mark(field, 0), said.value), fs);
    } else {
      assert [] + es == es && [] + fs == fs;
    }
  }

  lemma SameMarks(d: Data, said: Data)
    requires SameShape(d, said)
    ensures MarksOf(Entries(d)) == MarksOf(Entries(said))
  {
    SameListMarks(d.readWhen, said.readWhen);
    SameFieldMarks("title: ", Title, d.title, said.title, ListEntries(d.readWhen), ListEntries(said.readWhen));
    SameFieldMarks("summary: ", Summary, d.summary, said.summary,
                   FieldEntry("title: ", Title, d.title) + ListEntries(d.readWhen),
                   FieldEntry("title: ", Title, said.title) + ListEntries(said.readWhen));
  }

  // ----- what is put back

  function ReadField(field: Field, value: Option<string>): Option<string> {
    if value.Some? then Some(Found(Mark(field, 0), value.value)) else None
  }

  function ReadItem(item: Item, index: nat): Item {
    match item
    case Words(value) => Words(Found(Mark(ReadWhen, index), value))
    case Other(shown) => item
  }

  function ReadItems(items: seq<Item>, k: nat): seq<Item>
    requires k <= |items|
    decreases |items| - k
  {
    if k == |items| then [] else [ReadItem(items[k], k)] + ReadItems(items, k + 1)
  }

  // Every value up to its closing marker, without the white space around it.
  function ReadBack(d: Data): Data {
    Data(ReadField(Summary, d.summary), ReadField(Title, d.title),
         if d.readWhen.Some? then Some(ReadItems(d.readWhen.value, 0)) else None)
  }

  lemma {:induction false} ItemsPut(d: Data, items: seq<Item>, said: seq<Item>, done: seq<Item>, k: nat)
    requires SameItems(items, said) && k <= |items| && |done| == k && d.readWhen == Some(done + items[k..])
    ensures PutAll(d, ItemEntries(said, k)) == d.(readWhen := Some(done + ReadItems(said, k)))
    decreases |items| - k
  {
    if k == |items| {
      assert items[k..] == [];
    } else {
      var next := ReadItem(said[k], k);
      var d2 := d.(readWhen := Some(done + [next] + items[k + 1..]));
      ItemPut(d, items, said, done, k);
      ItemsPut(d2, items, said, done + [next], k + 1);
      assert done + [next] + ReadItems(said, k + 1) == done + ([next] + ReadItems(said, k + 1));
    }
  }

  lemma ItemPut(d: Data, items: seq<Item>, said: seq<Item>, done: seq<Item>, k: nat)
    requires SameItems(items, said) && k < |items| && |done| == k && d.readWhen == Some(done + items[k..])
    ensures var after := d.(readWhen := Some(done + [ReadItem(said[k], k)] + items[k + 1..]));
            PutAll(d, ItemEntries(said, k)) == PutAll(after, ItemEntries(said, k + 1))
  {
    var e := ItemEntry(said[k], k);
    var now := done + items[k..];
    assert ([e] + ItemEntries(said, k + 1))[1..] == ItemEntries(said, k + 1);
    if said[k].Words? {
      PaddedCounts(now, k + 1);
      assert now[k := ReadItem(said[k], k)] == done + [ReadItem(said[k], k)] + items[k + 1..];
    } else {
      assert now == done + [ReadItem(said[k], k)] + items[k + 1..];
    }
  }

  lemma ListPut(d: Data, said: Option<seq<Item>>)
    requires d.readWhen.Some? == said.Some? && (said.Some? ==> SameItems(d.readWhen.value, said.value))
    ensures PutAll(d, ListEntries(said)) ==
              d.(readWhen := if said.Some? then Some(ReadItems(said.value, 0)) else None)
  {
    if said.Some? {
      var items := d.readWhen.value;
      assert [] + items[0..] == items;
      ItemsPut(d, items, said.value, [], 0);
      assert ([Plain("read_when:")] + ItemEntries(said.value, 0))[1..] == ItemEntries(said.value, 0);
      assert [] + ReadItems(said.value, 0) == ReadItems(said.value, 0);
    }
  }

  lemma FieldPut(d: Data, lead: string, field: Field, value: Option<string>, es: seq<Entry>)
    ensures PutAll(d, FieldEntry(lead, field, value) + es) ==
              PutAll(if value.Some? then Put(d, Mark(field, 0), Found(Mark(field, 0), value.value)) else d, es)
  {
    if value.Some? {
      assert (FieldEntry(lead, field, value) + es)[1..] == es;
    } else {
      assert [] + es == es;
    }
  }

  lemma AllPut(d: Data, said: Data)
    requires SameShape(d, said)
    ensures PutAll(d, Entries(said)) == ReadBack(said)
  {
    var d1 := d.(summary := ReadField(Summary, said.summary));
    var d2 := d1.(title := ReadField(Title, said.title));
    FieldPut(d, "summary: ", Summary, said.summary,
             FieldEntry("title: ", Title, said.title) + ListEntries(said.readWhen));
    FieldPut(d1, "title: ", Title, said.title, ListEntries(said.readWhen));
    ListPut(d2, said.readWhen);
  }

  // Whatever values come back between the markers, each is put where it belongs, up to its own closing marker, as long
  // as no opening marker stands in front of its place.
  lemma TranslationsAreFiled(d: Data, said: Data)
    requires SameShape(d, said) && OpensFirst(Entries(said))
    ensures Apply(d, MarksOf(Entries(d)), Template(said)) == Applied(ReadBack(said), None)
  {
    var es := Entries(said);
    EntriesAreWellMarked(said);
    forall i | 0 <= i < |es| ensures IsFoundIn(es[i], Template(said)) {
      if es[i].Marked? { ExtractEntry(es, i); }
    }
    ApplyPuts(d, es, Template(said));
    SameMarks(d, said);
    AllPut(d, said);
  }

  // ----- what is missing

  // Without the opening marker, or without the closing one behind it, that marker is reported.
  lemma MarkerIsReported(text: string, before: string, mark: Mark)
    ensures Index(text, Start(mark)).None? ==>
              ExtractMarkerValue(text, Start(mark), End(mark)) == Err(MissingMarker(Start(mark)))
    ensures Index(before, Start(mark)).None? && Index(text, End(mark)).None? ==>
              ExtractMarkerValue(before + Start(mark) + text, Start(mark), End(mark)) == Err(MissingMarker(End(mark)))
  {
    if Index(before, Start(mark)).None? {
      var whole := before + Start(mark) + text;
      MarksAreMarkers(mark);
      FoundBetween(before, Start(mark), text);
      assert whole[|before| + |Start(mark)|..] == text;
      ExtractAt(whole, Start(mark), End(mark), |before|, text);
    }
  }

  predicate IsRead(mark: Mark, text: string) {
    ExtractMarkerValue(text, Start(mark), End(mark)).Ok?
  }

  lemma ApplyFirst(d: Data, marks: seq<Mark>, text: string) returns (next: Data)
    requires marks != [] && IsRead(marks[0], text)
    ensures Apply(d, marks, text) == Apply(next, marks[1..], text)
    ensures forall k :: 0 < k <= |marks| ==> Apply(d, marks[..k], text) == Apply(next, marks[1..][..k - 1], text)
  {
    next := Put(d, marks[0], TrimSpace(ExtractMarkerValue(text, Start(marks[0]), End(marks[0])).value));
    forall k | 0 < k <= |marks| ensures Apply(d, marks[..k], text) == Apply(next, marks[1..][..k - 1], text) {
      assert marks[..k][1..] == marks[1..][..k - 1] && marks[..k][0] == marks[0];
    }
  }

  // The first marker that is missing is reported, after the values in front of it have been put in their places.
  lemma {:induction false} FirstMissingStops(d: Data, marks: seq<Mark>, text: string, k: nat)
    requires k < |marks| && (forall j :: 0 <= j < k ==> IsRead(marks[j], text)) && !IsRead(marks[k], text)
    ensures Apply(d, marks[..k], text).error == None
    ensures Apply(d, marks, text) == Applied(Apply(d, marks[..k], text).data,
                                             Some(ExtractMarkerValue(text, Start(marks[k]), End(marks[k])).error))
    decreases k
  {
    if k > 0 {
      var next := ApplyFirst(d, marks, text);
      assert marks[1..][k - 1] == marks[k];
      FirstMissingStops(next, marks[1..], text, k - 1);
    } else {
      assert marks[..0] == [];
    }
  }

  // An item set behind the end of the list is its last one, with empty strings up to it; the others stay.
  lemma SetIsMeant(items: seq<Item>, index: nat, value: string, i: nat)
    ensures var r := SetReadWhenValue(Some(items), index, value);
            && |r| == (if index < |items| then |items| else index + 1)
            && (i < |r| ==> r[i] == if i == index then Words(value) else if i < |items| then items[i] else Words(""))
    ensures SetReadWhenValue(None, index, value) == SetReadWhenValue(Some([]), index, value)
  {
    PaddingIsMeant(items, index + 1, i);
  }

  lemma {:induction false} PaddingIsMeant(items: seq<Item>, n: nat, i: nat)
    ensures var r := Padded(items, n);
            && |r| == (if |items| < n then n else |items|)
            && (i < |r| ==> r[i] == if i < |items| then items[i] else Words(""))
    decreases n - |items|
  {
    if |items| < n { PaddingIsMeant(items + [Words("")], n, i); }
  }

  // ----- what the template looks like

  // The lines of a document with all three entries: the second item of the list is a string, the first is not.
  lemma TemplateIsMeant(summary: string, title: string, shown: string, value: string)
    ensures LinesOf(Entries(Data(Some(summary), Some(title), Some([Other(shown), Words(value)])))) == [
              "summary: " + "[[[FM_SUMMARY_0_START]]]" + summary + "[[[FM_SUMMARY_0_END]]]",
              "title: " + "[[[FM_TITLE_0_START]]]" + title + "[[[FM_TITLE_0_END]]]",
              "read_when:", "  - " + shown,
              "  - " + "[[[FM_READ_WHEN_1_START]]]" + value + "[[[FM_READ_WHEN_1_END]]]"]
  {
    SummaryMark();
    TitleMark();
    SecondItemMark();
    var items := [Other(shown), Words(value)];
    var a, b := Marked("summary: ", Mark(Summary, 0), summary), Marked("title: ", Mark(Title, 0), title);
    var c, d, e := Plain("read_when:"), Plain("  - " + shown), Marked("  - ", Mark(ReadWhen, 1), value);
    assert ItemEntries(items, 2) == [];
    assert ItemEntries(items, 1) == [e] + [];
    assert ItemEntries(items, 0) == [d] + ([e] + []);
    assert ListEntries(Some(items)) == [c] + ([d] + ([e] + []));
    FirstEntry(e, []);
    FirstEntry(d, [e] + []);
    FirstEntry(c, [d] + ([e] + []));
    FirstEntry(b, [c] + ([d] + ([e] + [])));
    FirstEntry(a, [b] + ([c] + ([d] + ([e] + []))));
  }

  // ----- when the values come back whole

  function TrimmedItem(item: Item): Item {
    match item
    case Words(value) => Words(TrimSpace(value))
    case Other(shown) => item
  }

  function TrimmedItems(items: seq<Item>, k: nat): seq<Item>
    requires k <= |items|
    decreases |items| - k
  {
    if k == |items| then [] else [TrimmedItem(items[k])] + TrimmedItems(items, k + 1)
  }

  function TrimmedField(value: Option<string>): Option<string> {
    if value.Some? then Some(TrimSpace(value.value)) else None
  }

  function Trimmed(d: Data): Data {
    Data(TrimmedField(d.summary), TrimmedField(d.title),
         if d.readWhen.Some? then Some(TrimmedItems(d.readWhen.value, 0)) else None)
  }

  // No value holds its own closing marker.
  predicate ClosesLast(d: Data) {
    && (d.summary.Some? ==> Index(d.summary.value, End(Mark(Summary, 0))).None?)
    && (d.title.Some? ==> Index(d.title.value, End(Mark(Title, 0))).None?)
    && (d.readWhen.Some? ==> ItemsCloseLast(d.readWhen.value, 0))
  }

  predicate ItemsCloseLast(items: seq<Item>, k: nat) {
    forall i :: k <= i < |items| ==> ItemClosesLast(items[i], i)
  }

  lemma FoundIsWholeIff(mark: Mark, value: string)
    ensures Found(mark, value) == TrimSpace(value) <==> Index(value, End(mark)).None?
  {
    MarksAreMarkers(mark);
    CutIsNoticedIff(value, End(mark));
  }

  predicate ItemClosesLast(item: Item, k: nat) {
    item.Words? ==> Index(item.value, End(Mark(ReadWhen, k))).None?
  }

  lemma ItemIsWholeIff(item: Item, k: nat)
    ensures ReadItem(item, k) == TrimmedItem(item) <==> ItemClosesLast(item, k)
  {
    if item.Words? { FoundIsWholeIff(Mark(ReadWhen, k), item.value); }
  }

  lemma {:induction false} ItemsAreWholeIff(items: seq<Item>, k: nat)
    requires k <= |items|
    ensures ReadItems(items, k) == TrimmedItems(items, k) <==> ItemsCloseLast(items, k)
    decreases |items| - k
  {
    if k < |items| {
      ItemsAreWholeIff(items, k + 1);
      FirstItemIsWhole(items, k, ReadItems(items, k + 1), TrimmedItems(items, k + 1));
      ItemIsWholeIff(items[k], k);
      FirstItemCloses(items, k);
    }
  }

  lemma FirstItemIsWhole(items: seq<Item>, k: nat, read: seq<Item>, trimmed: seq<Item>)
    requires k < |items| && read == ReadItems(items, k + 1) && trimmed == TrimmedItems(items, k + 1)
    ensures ReadItems(items, k) == TrimmedItems(items, k) <==>
              ReadItem(items[k], k) == TrimmedItem(items[k]) && read == trimmed
  {
    ConsIff(ReadItem(items[k], k), TrimmedItem(items[k]), read, trimmed);
  }

  lemma FirstItemCloses(items: seq<Item>, k: nat)
    requires k < |items|
    ensures ItemsCloseLast(items, k) <==> ItemClosesLast(items[k], k) && ItemsCloseLast(items, k + 1)
  {
  }

  lemma ConsIff(x: Item, y: Item, xs: seq<Item>, ys: seq<Item>)
    ensures [x] + xs == [y] + ys <==> x == y && xs == ys
  {
    assert ([x] + xs)[0] == x && ([x] + xs)[1..] == xs;
    assert ([y] + ys)[0] == y && ([y] + ys)[1..] == ys;
  }

  // Every value comes back, but for the white space around it, exactly if none holds its own closing marker.
  lemma ValuesComeBackIff(d: Data, said: Data)
    requires SameShape(d, said) && OpensFirst(Entries(said))
    ensures Apply(d, MarksOf(Entries(d)), Template(said)) == Applied(Trimmed(said), None) <==> ClosesLast(said)
  {
    TranslationsAreFiled(d, said);
    if said.summary.Some? { FoundIsWholeIff(Mark(Summary, 0), said.summary.value); }
    if said.title.Some? { FoundIsWholeIff(Mark(Title, 0), said.title.value); }
    if said.readWhen.Some? { ItemsAreWholeIff(said.readWhen.value, 0); }
  }

  lemma TwoLines(e: Entry, f: Entry)
    ensures JoinLines(LinesOf([e] + ([f] + []))) == Line(e) + "\n" + Line(f)
  {
    FirstEntry(e, [f] + []);
    FirstEntry(f, []);
    assert LinesOf([e] + ([f] + [])) == [Line(e), Line(f)];
  }

  lemma LineThenLine(x: string, e: string, last: string)
    ensures x + e + "\n" + last == x + (e + ("\n" + last))
  {
  }

  lemma TwoFields(summary: string, title: string)
    ensures var s, last := Mark(Summary, 0), Marked("title: ", Mark(Title, 0), title);
            Template(Data(Some(summary), Some(title), None)) ==
              "summary: " + Start(s) + summary + (End(s) + ("\n" + Line(last)))
  {
    var s, last := Mark(Summary, 0), Marked("title: ", Mark(Title, 0), title);
    TwoLines(Marked("summary: ", s, summary), last);
    LineThenLine("summary: " + Start(s) + summary, End(s), Line(last));
  }

  lemma ForgedIsRead(lead: string, s: string, a: string, t: string, forged: string, u: string, b: string, rest: string)
    requires IsFlat(lead) && IsMarker(s) && IsMarker(t) && IsMarker(u) && s != t
    requires Index(a, t).None? && Index(forged, u).None?
    ensures ExtractMarkerValue(lead + s + (a + t + (forged + u + b)) + rest, t, u) == Ok(forged)
  {
    NotInFlat(lead, t);
    NotFoundAround(lead, s, a, t);
    ExtractHere(lead + s + a, t, forged, u, b + rest);
    Unfolded(lead, s, a, t, forged, u, b, rest);
  }

  lemma Unfolded(lead: string, s: string, a: string, t: string, forged: string, u: string, b: string, rest: string)
    ensures lead + s + (a + t + (forged + u + b)) + rest == lead + s + a + t + (forged + u + (b + rest))
  {
  }

  // The condition on what stands in front cannot be left out: a summary that holds the markers of the title is read as
  // the title, whatever the title is.
  lemma SummaryForgesTitle(a: string, forged: string, b: string, title: string)
    requires Index(a, Start(Mark(Title, 0))).None? && Index(forged, End(Mark(Title, 0))).None?
    ensures var t := Mark(Title, 0);
            var d := Data(Some(a + Start(t) + (forged + End(t) + b)), Some(title), None);
            ExtractMarkerValue(Template(d), Start(t), End(t)) == Ok(forged)
  {
    var s, t := Mark(Summary, 0), Mark(Title, 0);
    var rest := End(s) + ("\n" + Line(Marked("title: ", t, title)));
    MarksAreMarkers(s);
    MarksAreMarkers(t);
    MarksDiffer(t, s);
    ForgedIsRead("summary: ", Start(s), a, Start(t), forged, End(t), b, rest);
    TwoFields(a + Start(t) + (forged + End(t) + b), title);
  }

  // ----- the document's own data

  // What is printed so far, and the entries still to be printed.
  ghost predicate Printed(es: seq<Entry>, lines: seq<string>, markers: seq<Mark>, rest: seq<Entry>) {
    LinesOf(es) == lines + LinesOf(rest) && MarksOf(es) == markers + MarksOf(rest)
  }

  lemma PrintedOne(es: seq<Entry>, lines: seq<string>, markers: seq<Mark>, e: Entry, rest: seq<Entry>)
    requires Printed(es, lines, markers, [e] + rest)
    ensures Printed(es, lines + [Line(e)], markers + if e.Marked? then [e.mark] else [], rest)
  {
    FirstEntry(e, rest);
    Associates(lines, [Line(e)], LinesOf(rest));
    Associates(markers, if e.Marked? then [e.mark] else [], MarksOf(rest));
  }

  lemma AllPrinted(es: seq<Entry>, lines: seq<string>, markers: seq<Mark>)
    requires Printed(es, lines, markers, [])
    ensures LinesOf(es) == lines && MarksOf(es) == markers
  {
  }

  function LineOfField(lead: string, field: Field, value: Option<string>): seq<string> {
    if value.Some? then [Line(Marked(lead, Mark(field, 0), value.value))] else []
  }

  function MarkOfField(field: Field, value: Option<string>): seq<Mark> {
    if value.Some? then [Mark(field, 0)] else []
  }

  lemma FieldPrinted(es: seq<Entry>, lines: seq<string>, markers: seq<Mark>, lead: string, field: Field,
                     value: Option<string>, rest: seq<Entry>)
    requires Printed(es, lines, markers, FieldEntry(lead, field, value) + rest)
    ensures Printed(es, lines + LineOfField(lead, field, value), markers + MarkOfField(field, value), rest)
  {
    if value.Some? {
      PrintedOne(es, lines, markers, Marked(lead, Mark(field, 0), value.value), rest);
    } else {
      assert [] + rest == rest && lines + [] == lines && markers + [] == markers;
    }
  }

  lemma FieldsPrinted(d: Data, lines: seq<string>, markers: seq<Mark>)
    requires lines == LineOfField("summary: ", Summary, d.summary) + LineOfField("title: ", Title, d.title)
    requires markers == MarkOfField(Summary, d.summary) + MarkOfField(Title, d.title)
    ensures d.readWhen.None? ==> Printed(Entries(d), lines, markers, [])
    ensures d.readWhen.Some? ==> Printed(Entries(d), lines + ["read_when:"], markers, ItemEntries(d.readWhen.value, 0))
  {
    var es, rest := Entries(d), ListEntries(d.readWhen);
    assert Printed(es, [], [], es);
    FieldPrinted(es, [], [], "summary: ", Summary, d.summary, FieldEntry("title: ", Title, d.title) + rest);
    assert [] + LineOfField("summary: ", Summary, d.summary) == LineOfField("summary: ", Summary, d.summary);
    assert [] + MarkOfField(Summary, d.summary) == MarkOfField(Summary, d.summary);
    FieldPrinted(es, LineOfField("summary: ", Summary, d.summary), MarkOfField(Summary, d.summary), "title: ", Title,
                 d.title, rest);
    if d.readWhen.Some? {
      PrintedOne(es, lines, markers, Plain("read_when:"), ItemEntries(d.readWhen.value, 0));
      assert markers + [] == markers;
    }
  }

  class FrontmatterData {
    var summary: Option<string>
    var title: Option<string>
    var readWhen: Option<seq<Item>>

    function Contents(): Data
      reads this
    {
      Data(summary, title, readWhen)
    }

    method BuildFrontmatterTemplate() returns (template: string, markers: seq<Mark>)
      ensures template == Template(Contents()) && markers == MarksOf(Entries(Contents()))
    {
      var lines: seq<string> := [];
      markers := [];
      if summary.Some? {
        markers := markers + [Mark(Summary, 0)];
        lines := lines + ["summary: " + Start(Mark(Summary, 0)) + summary.value + End(Mark(Summary, 0))];
      }
      if title.Some? {
        markers := markers + [Mark(Title, 0)];
        lines := lines + ["title: " + Start(Mark(Title, 0)) + title.value + End(Mark(Title, 0))];
      }
      ghost var es := Entries(Contents());
      FieldsPrinted(Contents(), lines, markers);
      if readWhen.Some? {
        lines := lines + ["read_when:"];
        var items := readWhen.value;
        for index := 0 to |items|
          invariant Printed(es, lines, markers, ItemEntries(items, index))
        {
          PrintedOne(es, lines, markers, ItemEntry(items[index], index), ItemEntries(items, index + 1));
          match items[index] {
            case Other(shown) => lines := lines + ["  - " + shown];
            case Words(value) =>
              var mark := Mark(ReadWhen, index);
              markers := markers + [mark];
              lines := lines + ["  - " + Start(mark) + value + End(mark)];
          }
        }
      }
      AllPrinted(es, lines, markers);
      template := JoinLines(lines);
    }

    // The markers in turn, until one is missing.
    method ApplyFrontmatterTranslations(markers: seq<Mark>, translated: string) returns (error: Option<ExtractError>)
      modifies this
      ensures Applied(Contents(), error) == Apply(old(Contents()), markers, translated)
    {
      for k := 0 to |markers|
        invariant Apply(Contents(), markers[k..], translated) == Apply(old(Contents()), markers, translated)
      {
        var mark := markers[k];
        match ExtractMarkerValue(translated, Start(mark), End(mark)) {
          case Err(e) => return Some(e);
          case Ok(text) =>
            var value := TrimSpace(text);
            match mark.field {
              case Summary => summary := Some(value);
              case Title => title := Some(value);
              case ReadWhen =>
                var items := SetReadWhen(readWhen, mark.index, value);
                readWhen := Some(items);
            }
        }
      }
      return None;
    }
  }

  method SetReadWhen(existing: Option<seq<Item>>, index: nat, value: string) returns (items: seq<Item>)
    ensures items == SetReadWhenValue(existing, index, value)
  {
    items := if existing.Some? then existing.value else [];
    ghost var start := items;
    while |items| <= index
      invariant Padded(items, index + 1) == Padded(start, index + 1)
    {
      items := items + [Words("")];
    }
    items := items[index := Words(value)];
  }
}
