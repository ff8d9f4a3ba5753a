/** The tagged form in which a document goes to the translator and comes back. */
module TaggedDocument {
  import opened GoText
  import opened Text

  const FRONT_START := "<frontmatter>"
  const FRONT_END := "</frontmatter>"
  const BODY_START := "<body>"
  const BODY_END := "</body>"

  datatype ParseError = Missing(tag: string) | TextOutside

  // ----- searching

  // strings.Index
  function Index(s: string, u: string): Option<nat> {
    if u <= s then Some(0)
    else if s == "" then None
    else match Index(s[1..], u) case None => None case Some(i) => Some(i + 1)
  }

  lemma {:induction false} IndexBounds(s: string, u: string)
    ensures Index(s, u).Some? ==> Index(s, u).value + |u| <= |s|
  {
    if !(u <= s) && s != "" { IndexBounds(s[1..], u); }
  }

  // A tag has its angle bracket in front and nowhere else.
  predicate IsTag(u: string) {
    |u| > 1 && u[0] == '<' && forall k :: 0 < k < |u| ==> u[k] != '<'
  }

  lemma Tags()
    ensures IsTag(FRONT_START) && IsTag(FRONT_END) && IsTag(BODY_START) && IsTag(BODY_END)
  {
  }

  lemma {:induction false} IndexMeans(s: string, u: string)
    requires IsTag(u)
    ensures match Index(s, u)
            case None => true
            case Some(i) => i + |u| <= |s| && s == s[..i] + u + s[i + |u|..] && Index(s[..i], u).None?
  {
    if u <= s {
      assert s == "" + u + s[|u|..];
      assert s[..0] == "";
    } else if s != "" {
      IndexMeans(s[1..], u);
      IndexBounds(s[1..], u);
      match Index(s[1..], u)
      case None => {}
      case Some(i) =>
        assert s[..i + 1] == [s[0]] + s[1..][..i];
        assert s[1..][i + |u|..] == s[i + 1 + |u|..];
        NoTagInPrefix(s, i + 1, u);
    }
  }

  lemma NoTagInPrefix(s: string, i: nat, u: string)
    requires 0 < i <= |s| && !(u <= s) && IsTag(u) && Index(s[1..][..i - 1], u).None?
    ensures Index(s[..i], u).None?
  {
    assert s[..i][1..] == s[1..][..i - 1];
    assert u <= s[..i] ==> u <= s;
  }

  // The first tag behind text that has none is where that text ends.
  lemma {:induction false} IndexBehind(x: string, u: string, rest: string)
    requires IsTag(u) && Index(x, u).None?
    ensures Index(x + u + rest, u) == Some(|x|)
  {
    if x == "" {
      assert u <= x + u + rest;
    } else {
      var s := x + u + rest;
      assert s[1..] == x[1..] + u + rest;
      if u <= s { TagInFront(x, u, rest); }
      IndexBehind(x[1..], u, rest);
    }
  }

  lemma TagInFront(x: string, u: string, rest: string)
    requires IsTag(u) && x != "" && u <= x + u + rest
    ensures u <= x
  {
    var s := x + u + rest;
    assert s[|x|] == '<';
    assert forall k :: 0 <= k < |u| ==> s[k] == u[k];
    assert x == s[..|x|];
  }

  // Line ends around a text neither make nor hide a tag.
  lemma {:induction false} IndexInLines(f: string, u: string)
    requires IsTag(u) && '\n' !in u
    ensures Index("\n" + f + "\n", u).None? <==> Index(f, u).None?
  {
    assert ("\n" + f + "\n")[1..] == f + "\n";
    IndexBeforeLine(f, u);
  }

  lemma PrefixBeforeLine(f: string, u: string)
    requires '\n' !in u
    ensures u <= f + "\n" ==> u <= f
  {
    var s := f + "\n";
    assert s[|f|] == '\n';
    if u <= s {
      assert forall k :: 0 <= k < |u| ==> u[k] == s[k];
      assert f == s[..|f|];
    }
  }

  lemma {:induction false} IndexBeforeLine(f: string, u: string)
    requires IsTag(u) && '\n' !in u
    ensures Index(f + "\n", u).None? <==> Index(f, u).None?
  {
    PrefixBeforeLine(f, u);
    if f == "" {
      assert (f + "\n")[1..] == "";
    } else {
      assert (f + "\n")[1..] == f[1..] + "\n";
      IndexBeforeLine(f[1..], u);
    }
  }

  // ----- printing and parsing

  function FormatTaggedDocument(front: string, body: string): string {
    FRONT_START + "\n" + front + "\n" + FRONT_END + "\n" + BODY_START + "\n" + body + "\n" + BODY_END
  }

  function TrimTagNewlines(value: string): string {
    var v := if value != "" && value[0] == '\n' then value[1..] else value;
    if v != "" && v[|v| - 1] == '\n' then v[..|v| - 1] else v
  }

  datatype Sections = Sections(before: string, front: string, gap: string, body: string, behind: string)

  // The text cut at the first of each tag behind the one before.
  function Cut(text: string): Result<Sections, ParseError> {
    match Index(text, FRONT_START)
    case None => Err(Missing(FRONT_START))
    case Some(i) =>
      IndexBounds(text, FRONT_START);
      CutFront(text[..i], text[i + |FRONT_START|..])
  }

  function CutFront(before: string, text: string): Result<Sections, ParseError> {
    match Index(text, FRONT_END)
    case None => Err(Missing(FRONT_END))
    case Some(i) =>
      IndexBounds(text, FRONT_END);
      CutGap(before, text[..i], text[i..])
  }

  // The search for the body goes on from the closing tag, not from behind it.
  function CutGap(before: string, front: string, text: string): Result<Sections, ParseError> {
    match Index(text, BODY_START)
    case None => Err(Missing(BODY_START))
    case Some(i) =>
      IndexBounds(text, BODY_START);
      CutBody(before, front, text[..i], text[i + |BODY_START|..])
  }

  function CutBody(before: string, front: string, gap: string, text: string): Result<Sections, ParseError> {
    match Index(text, BODY_END)
    case None => Err(Missing(BODY_END))
    case Some(i) =>
      IndexBounds(text, BODY_END);
      Ok(Sections(before, front, gap, text[..i], text[i + |BODY_END|..]))
  }

  function ParseTaggedDocument(text: string): Result<(string, string), ParseError> {
    match Cut(text)
    case Err(e) => Err(e)
    case Ok(s) =>
      if TrimSpace(s.before) != "" || TrimSpace(s.behind) != "" then Err(TextOutside)
      else Ok((TrimTagNewlines(s.front), TrimTagNewlines(s.body)))
  }

  // ----- what parsing finds

  predicate IsSections(s: Sections) {
    && Index(s.before, FRONT_START).None? && Index(s.front, FRONT_END).None?
    && Index(s.gap, BODY_START).None? && Index(s.body, BODY_END).None?
  }

  function Assemble(s: Sections): string {
    s.before + FRONT_START + (s.front + (s.gap + BODY_START + (s.body + BODY_END + s.behind)))
  }

  lemma {:induction false} SplitAtTag(x: string, u: string, rest: string)
    requires IsTag(u) && Index(x, u).None?
    ensures var s := x + u + rest;
            Index(s, u) == Some(|x|) && s[..|x|] == x && s[|x|..] == u + rest && s[|x| + |u|..] == rest
  {
    IndexBehind(x, u, rest);
  }

  lemma BodyIsCut(before: string, front: string, gap: string, body: string, behind: string)
    requires Index(body, BODY_END).None?
    ensures CutBody(before, front, gap, body + BODY_END + behind) == Ok(Sections(before, front, gap, body, behind))
  {
    Tags();
    SplitAtTag(body, BODY_END, behind);
  }

  lemma GapIsCut(before: string, front: string, gap: string, text: string)
    requires Index(gap, BODY_START).None?
    ensures CutGap(before, front, gap + BODY_START + text) == CutBody(before, front, gap, text)
  {
    Tags();
    SplitAtTag(gap, BODY_START, text);
  }

  lemma FrontIsCut(before: string, front: string, text: string)
    requires Index(front, FRONT_END).None? && FRONT_END <= text
    ensures CutFront(before, front + text) == CutGap(before, front, text)
  {
    Tags();
    var rest := text[|FRONT_END|..];
    assert text == FRONT_END + rest;
    assert front + text == front + FRONT_END + rest;
    SplitAtTag(front, FRONT_END, rest);
  }

  lemma StartIsCut(before: string, text: string)
    requires Index(before, FRONT_START).None?
    ensures Cut(before + FRONT_START + text) == CutFront(before, text)
  {
    Tags();
    SplitAtTag(before, FRONT_START, text);
  }

  lemma PrefixStays(u: string, gap: string, rest: string)
    requires u <= gap
    ensures u <= gap + rest
  {
  }

  lemma CutAssembled(s: Sections)
    requires IsSections(s) && FRONT_END <= s.gap
    ensures Cut(Assemble(s)) == Ok(s)
  {
    var d := s.body + BODY_END + s.behind;
    var c := s.gap + BODY_START + d;
    PrefixStays(FRONT_END, s.gap, BODY_START);
    PrefixStays(FRONT_END, s.gap + BODY_START, d);
    StartIsCut(s.before, s.front + c);
    FrontIsCut(s.before, s.front, c);
    GapIsCut(s.before, s.front, s.gap, d);
    BodyIsCut(s.before, s.front, s.gap, s.body, s.behind);
  }

  // Where a tag is found, the text is what is before it, the tag, and what is behind it.
  lemma {:induction false} FoundAt(text: string, u: string, i: nat)
    requires IsTag(u) && Index(text, u) == Some(i)
    ensures i + |u| <= |text| && text == text[..i] + u + text[i + |u|..] && Index(text[..i], u).None?
    ensures text == text[..i] + text[i..] && u <= text[i..]
  {
    IndexMeans(text, u);
    assert text[i..][..|u|] == (text[..i] + u + text[i + |u|..])[i..i + |u|] == u;
  }

  lemma BodyMeans(before: string, front: string, gap: string, text: string)
    requires CutBody(before, front, gap, text).Ok?
    ensures var s := CutBody(before, front, gap, text).value;
            && s.before == before && s.front == front && s.gap == gap && Index(s.body, BODY_END).None?
            && text == s.body + BODY_END + s.behind
  {
    Tags();
    FoundAt(text, BODY_END, Index(text, BODY_END).value);
  }

  lemma GapMeans(before: string, front: string, text: string)
    requires CutGap(before, front, text).Ok? && FRONT_END <= text
    ensures var s := CutGap(before, front, text).value;
            && s.before == before && s.front == front && Index(s.gap, BODY_START).None? && Index(s.body, BODY_END).None?
            && FRONT_END <= s.gap && text == s.gap + BODY_START + (s.body + BODY_END + s.behind)
  {
    Tags();
    var i := Index(text, BODY_START).value;
    FoundAt(text, BODY_START, i);
    BodyMeans(before, front, text[..i], text[i + |BODY_START|..]);
    ClosingTagFits(text, i);
  }

  lemma TagsApart(u: string, v: string, text: string, i: nat)
    requires IsTag(u) && IsTag(v) && u[1] != v[1]
    requires u <= text && i <= |text| && v <= text[i..]
    ensures i >= |u|
  {
    assert forall k :: 0 <= k < |u| ==> text[k] == u[k];
    assert text[i] == text[i..][0] == v[0];
    assert text[i + 1] == text[i..][1] == v[1];
  }

  // The opening body tag cannot begin inside the closing front tag.
  lemma {:induction false} ClosingTagFits(text: string, i: nat)
    requires FRONT_END <= text && Index(text, BODY_START) == Some(i)
    ensures i <= |text| && FRONT_END <= text[..i]
  {
    Tags();
    FoundAt(text, BODY_START, i);
    TagsApart(FRONT_END, BODY_START, text, i);
  }

  lemma FrontMeans(before: string, text: string)
    requires CutFront(before, text).Ok?
    ensures var s := CutFront(before, text).value;
            && s.before == before && Index(s.front, FRONT_END).None?
            && Index(s.gap, BODY_START).None? && Index(s.body, BODY_END).None?
            && FRONT_END <= s.gap && text == s.front + (s.gap + BODY_START + (s.body + BODY_END + s.behind))
  {
    Tags();
    var i := Index(text, FRONT_END).value;
    FoundAt(text, FRONT_END, i);
    GapMeans(before, text[..i], text[i..]);
  }

  lemma CutMeans(text: string)
    requires Cut(text).Ok?
    ensures IsSections(Cut(text).value) && FRONT_END <= Cut(text).value.gap && text == Assemble(Cut(text).value)
  {
    Tags();
    var i := Index(text, FRONT_START).value;
    FoundAt(text, FRONT_START, i);
    FrontMeans(text[..i], text[i + |FRONT_START|..]);
  }

  // ----- the round trip

  function Formatted(front: string, body: string): Sections {
    Sections("", "\n" + front + "\n", FRONT_END + "\n", "\n" + body + "\n", "")
  }

  lemma FormatAssembles(front: string, body: string)
    ensures FormatTaggedDocument(front, body) == Assemble(Formatted(front, body))
  {
  }

  lemma TrimLines(value: string)
    ensures TrimTagNewlines("\n" + value + "\n") == value
  {
    assert ("\n" + value + "\n")[1..] == value + "\n";
    assert (value + "\n")[..|value|] == value;
  }

  lemma GapHasNoBody()
    ensures Index(FRONT_END + "\n", BODY_START).None?
  {
    var text := FRONT_END + "\n";
    if Index(text, BODY_START).Some? {
      IndexBounds(text, BODY_START);
      ClosingTagFits(text, Index(text, BODY_START).value);
    }
  }

  lemma {:induction false} FormattedIsSections(front: string, body: string)
    requires Index(front, FRONT_END).None? && Index(body, BODY_END).None?
    ensures IsSections(Formatted(front, body))
  {
    Tags();
    GapHasNoBody();
    IndexInLines(front, FRONT_END);
    IndexInLines(body, BODY_END);
  }

  lemma ParsesBack(front: string, body: string)
    requires Index(front, FRONT_END).None? && Index(body, BODY_END).None?
    ensures ParseTaggedDocument(FormatTaggedDocument(front, body)) == Ok((front, body))
  {
    FormattedIsSections(front, body);
    CutAssembled(Formatted(front, body));
    FormatAssembles(front, body);
    TrimLines(front);
    TrimLines(body);
  }

  lemma {:induction false} IndexKeeps(x: string, y: string, u: string)
    requires Index(x, u).Some?
    ensures Index(x + y, u) == Index(x, u)
  {
    if u <= x {
      assert u <= x + y;
    } else {
      IndexKeeps(x[1..], y, u);
      assert (x + y)[1..] == x[1..] + y;
      IndexBounds(x, u);
      if |u| <= |x| { assert (x + y)[..|u|] == x[..|u|]; }
    }
  }

  lemma FrontEndsAt(text: string, i: nat)
    requires Index(text, FRONT_END) == Some(i) && CutFront("", text).Ok?
    ensures |CutFront("", text).value.front| == i
  {
    Tags();
    FoundAt(text, FRONT_END, i);
    GapMeans("", text[..i], text[i..]);
  }

  lemma TagInFrontMatter(front: string, text: string, u: string)
    requires IsTag(u) && '\n' !in u && |u| > 2 && Index(front, u).Some?
    ensures var found := Index("\n" + front + "\n" + text, u); found.Some? && found.value < |front|
  {
    var x := "\n" + front + "\n";
    IndexInLines(front, u);
    IndexBounds(x, u);
    IndexKeeps(x, text, u);
  }

  lemma CutShort(whole: string, n: nat)
    requires Index(whole, FRONT_END).Some? && Index(whole, FRONT_END).value < n
    ensures CutFront("", whole).Ok? ==> |TrimTagNewlines(CutFront("", whole).value.front)| < n
  {
    if CutFront("", whole).Ok? {
      FrontEndsAt(whole, Index(whole, FRONT_END).value);
    }
  }

  // A closing tag inside the front matter ends it there.
  lemma {:induction false} FrontCutShort(front: string, text: string)
    requires Index(front, FRONT_END).Some?
    ensures var parsed := CutFront("", "\n" + front + "\n" + text);
            parsed.Ok? ==> |TrimTagNewlines(parsed.value.front)| < |front|
  {
    Tags();
    TagInFrontMatter(front, text, FRONT_END);
    CutShort("\n" + front + "\n" + text, |front|);
  }

  // A closing tag inside the body leaves text behind it.
  lemma BodyCutShort(front: string, gap: string, body: string)
    requires Index(body, BODY_END).Some?
    ensures match CutBody("", front, gap, "\n" + body + "\n" + BODY_END + "")
            case Err(e) => true
            case Ok(s) => TrimSpace(s.behind) != ""
  {
    Tags();
    var z := "\n" + body + "\n";
    var text := z + BODY_END + "";
    assert text == z + BODY_END;
    IndexInLines(body, BODY_END);
    IndexBounds(z, BODY_END);
    IndexKeeps(z, BODY_END, BODY_END);
    var j := Index(z, BODY_END).value;
    var behind := text[j + |BODY_END|..];
    assert behind[|behind| - 1] == text[|text| - 1] == '>';
    SolidEndStays(behind);
  }

  // A document comes back from its tagged form exactly if neither part holds its own closing tag.
  lemma RoundTripIff(front: string, body: string)
    ensures ParseTaggedDocument(FormatTaggedDocument(front, body)) == Ok((front, body)) <==>
              Index(front, FRONT_END).None? && Index(body, BODY_END).None?
  {
    Tags();
    var s := Formatted(front, body);
    var d := s.body + BODY_END + s.behind;
    var c := s.gap + BODY_START + d;
    FormatAssembles(front, body);
    StartIsCut("", s.front + c);
    if Index(front, FRONT_END).Some? {
      FrontCutShort(front, c);
    } else if Index(body, BODY_END).Some? {
      IndexInLines(front, FRONT_END);
      GapHasNoBody();
      PrefixStays(FRONT_END, s.gap, BODY_START);
      PrefixStays(FRONT_END, s.gap + BODY_START, d);
      FrontIsCut("", s.front, c);
      GapIsCut("", s.front, s.gap, d);
      BodyCutShort(s.front, s.gap, body);
    } else {
      ParsesBack(front, body);
    }
  }

  // A text parses exactly if it is its sections between the four tags, with only white space outside; whatever
  // stands between the front matter and the body is passed over.
  lemma ParsesIff(text: string, front: string, body: string)
    ensures ParseTaggedDocument(text) == Ok((front, body)) <==>
              exists s ::
                && IsSections(s) && FRONT_END <= s.gap && text == Assemble(s)
                && TrimSpace(s.before) == "" && TrimSpace(s.behind) == ""
                && front == TrimTagNewlines(s.front) && body == TrimTagNewlines(s.body)
  {
    if s :|
      && IsSections(s) && FRONT_END <= s.gap && text == Assemble(s)
      && TrimSpace(s.before) == "" && TrimSpace(s.behind) == ""
      && front == TrimTagNewlines(s.front) && body == TrimTagNewlines(s.body)
    {
      CutAssembled(s);
    }
    if Cut(text).Ok? { CutMeans(text); }
  }

  // ----- what is reported

  lemma FormatIsMeant(front: string, body: string)
    ensures FormatTaggedDocument(front, body)
         == "<frontmatter>\n" + front + "\n</frontmatter>\n<body>\n" + body + "\n</body>"
  {
    assert "\n" + FRONT_END + "\n" + BODY_START + "\n" == "\n</frontmatter>\n<body>\n";
  }

  // The tags are looked for in turn, and the first one that is not found behind the others is reported.
  lemma FrontTagIsReported(text: string, before: string, rest: string)
    ensures Index(text, FRONT_START).None? ==> ParseTaggedDocument(text) == Err(Missing("<frontmatter>"))
    ensures Index(before, FRONT_START).None? && Index(rest, FRONT_END).None? ==>
              ParseTaggedDocument(before + FRONT_START + rest) == Err(Missing("</frontmatter>"))
  {
    if Index(before, FRONT_START).None? { StartIsCut(before, rest); }
  }

  lemma BodyTagIsReported(before: string, front: string, rest: string)
    requires Index(before, FRONT_START).None? && Index(front, FRONT_END).None?
    requires FRONT_END <= rest && Index(rest, BODY_START).None?
    ensures ParseTaggedDocument(before + FRONT_START + (front + rest)) == Err(Missing("<body>"))
  {
    StartIsCut(before, front + rest);
    FrontIsCut(before, front, rest);
  }

  lemma BodyEndIsReported(before: string, front: string, gap: string, rest: string)
    requires Index(before, FRONT_START).None? && Index(front, FRONT_END).None?
    requires FRONT_END <= gap && Index(gap, BODY_START).None? && Index(rest, BODY_END).None?
    ensures ParseTaggedDocument(before + FRONT_START + (front + (gap + BODY_START + rest))) == Err(Missing("</body>"))
  {
    var c := gap + BODY_START + rest;
    PrefixStays(FRONT_END, gap, BODY_START);
    PrefixStays(FRONT_END, gap + BODY_START, rest);
    StartIsCut(before, front + c);
    FrontIsCut(before, front, c);
    GapIsCut(before, front, gap, rest);
  }

  // With all tags there, solid text outside them is reported, and nothing else is.
  lemma OutsideIsReportedIff(s: Sections)
    requires IsSections(s) && FRONT_END <= s.gap
    ensures ParseTaggedDocument(Assemble(s)) == Err(TextOutside) <==> !AllWhite(s.before) || !AllWhite(s.behind)
  {
    CutAssembled(s);
    WhiteIffTrimmed(s.before);
    WhiteIffTrimmed(s.behind);
  }

  // ----- text between the two parts

  function WithGap(front: string, gap: string, body: string): string {
    FRONT_START + "\n" + front + "\n" + FRONT_END + gap + BODY_START + "\n" + body + "\n" + BODY_END
  }

  function GapSections(front: string, gap: string, body: string): Sections {
    Sections("", "\n" + front + "\n", FRONT_END + gap, "\n" + body + "\n", "")
  }

  lemma GapAssembles(front: string, gap: string, body: string)
    ensures WithGap(front, gap, body) == Assemble(GapSections(front, gap, body))
  {
  }

  lemma {:induction false} OccursIn(s: string, u: string, k: nat)
    requires k <= |s| && u != "" && u <= s[k..]
    ensures Index(s, u).Some?
  {
    if !(u <= s) {
      assert k > 0 by { assert s[0..] == s; }
      assert s[1..][k - 1..] == s[k..];
      OccursIn(s[1..], u, k - 1);
    }
  }

  lemma GapBehindTag(gap: string)
    requires Index(gap, BODY_START).None?
    ensures Index(FRONT_END + gap, BODY_START).None?
  {
    Tags();
    var text := FRONT_END + gap;
    if Index(text, BODY_START).Some? {
      var i := Index(text, BODY_START).value;
      FoundAt(text, BODY_START, i);
      TagsApart(FRONT_END, BODY_START, text, i);
      assert text[i..] == gap[i - |FRONT_END|..];
      OccursIn(gap, BODY_START, i - |FRONT_END|);
    }
  }

  lemma ParsesPastGap(front: string, gap: string, body: string)
    requires Index(front, FRONT_END).None? && Index(body, BODY_END).None? && Index(gap, BODY_START).None?
    ensures ParseTaggedDocument(WithGap(front, gap, body)) == Ok((front, body))
  {
    Tags();
    var s := GapSections(front, gap, body);
    GapBehindTag(gap);
    IndexInLines(front, FRONT_END);
    IndexInLines(body, BODY_END);
    PrefixStays(FRONT_END, FRONT_END, gap);
    CutAssembled(s);
    GapAssembles(front, gap, body);
    TrimLines(front);
    TrimLines(body);
  }

  // A body is cut where its last tag is, or solid text is left behind.
  lemma BodyOrBehind(front: string, gap: string, x: string)
    ensures match CutBody("", front, gap, x + BODY_END + "")
            case Err(e) => true
            case Ok(s) => s.body == x || TrimSpace(s.behind) != ""
  {
    Tags();
    var text := x + BODY_END + "";
    if Index(x, BODY_END).None? {
      SplitAtTag(x, BODY_END, "");
    } else {
      var j := Index(x, BODY_END).value;
      IndexBounds(x, BODY_END);
      assert text == x + BODY_END;
      IndexKeeps(x, BODY_END, BODY_END);
      var behind := text[j + |BODY_END|..];
      assert behind[|behind| - 1] == text[|text| - 1] == '>';
      SolidEndStays(behind);
    }
  }

  lemma TrimmedLength(value: string)
    ensures |TrimTagNewlines(value)| + 2 >= |value|
  {
  }

  lemma KeptRegroups(front: string, g: string, h: string, more: string)
    ensures FRONT_START + front + FRONT_END + (g + BODY_START + h) + BODY_START + more + BODY_END
         == "" + FRONT_START + (front + ((FRONT_END + g) + BODY_START + (h + BODY_START + more + BODY_END + "")))
  {
  }

  lemma WithGapIs(front: string, gap: string, body: string)
    ensures WithGap(front, gap, body)
         == FRONT_START + ("\n" + front + "\n") + FRONT_END + gap + BODY_START + ("\n" + body + "\n") + BODY_END
  {
  }

  lemma GapCutEarly(front: string, g: string, h: string, more: string)
    requires Index(front, FRONT_END).None? && Index(g, BODY_START).None?
    ensures Cut("" + FRONT_START + (front + ((FRONT_END + g) + BODY_START + (h + BODY_START + more + BODY_END + ""))))
         == CutBody("", front, FRONT_END + g, h + BODY_START + more + BODY_END + "")
  {
    var x := h + BODY_START + more + BODY_END + "";
    var c := (FRONT_END + g) + BODY_START + x;
    GapBehindTag(g);
    PrefixStays(FRONT_END, FRONT_END, g);
    PrefixStays(FRONT_END, FRONT_END + g, BODY_START);
    PrefixStays(FRONT_END, FRONT_END + g + BODY_START, x);
    StartIsCut("", front + c);
    FrontIsCut("", front, c);
    GapIsCut("", front, FRONT_END + g, x);
  }

  // If a body begins between the two parts, the body found is longer than the one meant, or text is left outside.
  lemma GapIsKept(front: string, gap: string, body: string)
    requires Index(front, FRONT_END).None? && Index(gap, BODY_START).Some?
    ensures ParseTaggedDocument(WithGap(front, gap, body)) != Ok((front, body))
  {
    Tags();
    IndexMeans(gap, BODY_START);
    var i := Index(gap, BODY_START).value;
    var g, h := gap[..i], gap[i + |BODY_START|..];
    var f, more := "\n" + front + "\n", "\n" + body + "\n";
    IndexInLines(front, FRONT_END);
    WithGapIs(front, gap, body);
    KeptRegroups(f, g, h, more);
    GapCutEarly(f, g, h, more);
    BodyOrBehind(f, FRONT_END + g, h + BODY_START + more);
    TrimmedLength(h + BODY_START + more);
  }

  // Whatever stands between the two parts is dropped without an error exactly if no body begins in it.
  lemma GapIsDroppedIff(front: string, gap: string, body: string)
    requires Index(front, FRONT_END).None? && Index(body, BODY_END).None?
    ensures ParseTaggedDocument(WithGap(front, gap, body)) == Ok((front, body)) <==> Index(gap, BODY_START).None?
  {
    if Index(gap, BODY_START).None? { ParsesPastGap(front, gap, body); } else { GapIsKept(front, gap, body); }
  }

  lemma {:induction false} NoTagWithoutBracket(s: string, u: string)
    requires IsTag(u) && '<' !in s
    ensures Index(s, u).None?
  {
    if s != "" { NoTagWithoutBracket(s[1..], u); }
  }

  // A translation that puts a third paragraph between the parts loses it.
  lemma StrayTextIsDropped(front: string, body: string)
    requires front == "title: T" && body == "Text."
    ensures ParseTaggedDocument(WithGap(front, "\nMore text.\n", body)) == Ok((front, body))
    ensures WithGap(front, "\nMore text.\n", body) != FormatTaggedDocument(front, body)
  {
    Tags();
    NoTagWithoutBracket(front, FRONT_END);
    NoTagWithoutBracket(body, BODY_END);
    NoTagWithoutBracket("\nMore text.\n", BODY_START);
    GapIsDroppedIff(front, "\nMore text.\n", body);
    assert |WithGap(front, "\nMore text.\n", body)| > |FormatTaggedDocument(front, body)|;
  }
}
