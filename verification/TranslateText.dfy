/**
 What surrounds one translation: the white space at the ends of a text is set aside and put back, and some failures
 are tried again.
 */
module TranslateText {
  import opened GoText
  import opened Masker
  import opened MaskLedger
  import opened MaskPasses
  import opened Masking
  import opened MaskTokens
  import opened Text
  import opened TranslateMasked

  // ----- the white space set aside

  predicate IsWhitespace(c: char) {
    c == ' ' || c == '\t' || c == '\n' || c == '\r'
  }

  datatype Split = Split(prefix: string, core: string, suffix: string)

  predicate AllWhitespace(s: string) {
    forall k :: 0 <= k < |s| ==> IsWhitespace(s[k])
  }

  predicate SolidEnds(s: string) {
    s != "" ==> !IsWhitespace(s[0]) && !IsWhitespace(s[|s| - 1])
  }

  // White space, the core, white space; a text of nothing but white space is all prefix.
  predicate IsSplit(text: string, s: Split) {
    && text == s.prefix + s.core + s.suffix
    && AllWhitespace(s.prefix) && AllWhitespace(s.suffix) && SolidEnds(s.core)
    && (s.core == "" ==> s.suffix == "")
  }

  // Where the white space from p on ends.
  function CoreStart(text: string, p: nat): (r: nat)
    requires p <= |text|
    ensures p <= r <= |text| && (forall k :: p <= k < r ==> IsWhitespace(text[k]))
    ensures r < |text| ==> !IsWhitespace(text[r])
    decreases |text| - p
  {
    if p < |text| && IsWhitespace(text[p]) then CoreStart(text, p + 1) else p
  }

  // Where the white space that ends at p begins.
  function CoreEnd(text: string, start: nat, p: nat): (r: nat)
    requires start <= p <= |text|
    ensures start <= r <= p && (forall k :: r <= k < p ==> IsWhitespace(text[k]))
    ensures start < r ==> !IsWhitespace(text[r - 1])
  {
    if start < p && IsWhitespace(text[p - 1]) then CoreEnd(text, start, p - 1) else p
  }

  function SplitOf(text: string): Split {
    var start := CoreStart(text, 0);
    var end := CoreEnd(text, start, |text|);
    Split(text[..start], text[start..end], text[end..])
  }

  lemma CutIsSplit(text: string, start: nat, end: nat)
    requires start <= end <= |text| && AllWhitespace(text[..start]) && AllWhitespace(text[end..])
    requires if start == end then end == |text| else !IsWhitespace(text[start]) && !IsWhitespace(text[end - 1])
    ensures IsSplit(text, Split(text[..start], text[start..end], text[end..]))
  {
    assert text == text[..start] + text[start..end] + text[end..];
  }

  lemma FoundSplit(text: string)
    ensures IsSplit(text, SplitOf(text))
  {
    var start := CoreStart(text, 0);
    CutIsSplit(text, start, CoreEnd(text, start, |text|));
  }

  lemma SplitPlaces(text: string, s: Split)
    requires IsSplit(text, s)
    ensures var n, m := |s.prefix|, |s.prefix| + |s.core|;
            && n <= m <= |text| && (forall k :: 0 <= k < n ==> IsWhitespace(text[k]))
            && (forall k :: m <= k < |text| ==> IsWhitespace(text[k]))
            && (n < |text| ==> !IsWhitespace(text[n])) && (n < m ==> !IsWhitespace(text[m - 1]))
  {
    var n, m := |s.prefix|, |s.prefix| + |s.core|;
    assert forall k :: 0 <= k < n ==> text[k] == s.prefix[k];
    assert forall k :: m <= k < |text| ==> text[k] == s.suffix[k - m];
    if s.core != "" { assert text[n] == s.core[0] && text[m - 1] == s.core[|s.core| - 1]; }
  }

  lemma OtherSplit(text: string, s: Split)
    requires IsSplit(text, s)
    ensures s == SplitOf(text)
  {
    var n, m := |s.prefix|, |s.prefix| + |s.core|;
    SplitPlaces(text, s);
    assert CoreStart(text, 0) == n;
    assert CoreEnd(text, n, |text|) == m;
    assert text[..n] == s.prefix && text[n..m] == s.core && text[m..] == s.suffix;
  }

  // There is one way to split a text, and that is the one found.
  lemma SplitIsUnique(text: string, s: Split)
    ensures IsSplit(text, s) <==> s == SplitOf(text)
  {
    FoundSplit(text);
    if IsSplit(text, s) { OtherSplit(text, s); }
  }

  const BLANKS: set<char> := { ' ', '\t', '\n', '\r' }

  predicate AllBlank(s: string) {
    forall k :: 0 <= k < |s| ==> s[k] in BLANKS
  }

  // Blanks, tabs and line ends are set aside at both ends of a text that has anything else, and nothing else is.
  lemma SplitIsMeant(before: string, middle: string, behind: string)
    requires AllBlank(before) && AllBlank(behind)
    requires if middle == "" then behind == "" else middle[0] !in BLANKS && middle[|middle| - 1] !in BLANKS
    ensures SplitOf(before + middle + behind) == Split(before, middle, behind)
  {
    SplitIsUnique(before + middle + behind, Split(before, middle, behind));
  }

  method SplitWhitespace(text: string) returns (prefix: string, core: string, suffix: string)
    ensures IsSplit(text, Split(prefix, core, suffix))
  {
    if text == "" {
      return "", "", "";
    }
    var start := 0;
    while start < |text| && IsWhitespace(text[start])
      invariant start <= |text| && AllWhitespace(text[..start])
    {
      assert text[..start + 1] == text[..start] + [text[start]];
      start := start + 1;
    }
    var end := |text|;
    while end > start && IsWhitespace(text[end - 1])
      invariant start <= end <= |text| && AllWhitespace(text[end..])
      invariant start == |text| ==> end == |text|
      invariant start < |text| ==> !IsWhitespace(text[start])
    {
      assert text[end - 1..] == [text[end - 1]] + text[end..];
      end := end - 1;
    }
    CutIsSplit(text, start, end);
    return text[..start], text[start..end], text[end..];
  }

  // ----- attempts

  const MAX_ATTEMPTS: nat := 3

  predicate IsRetryable(e: TranslateError) {
    match e
    case PromptFailed(retryable) => retryable
    case EmptyTranslation => true
    case PlaceholderMissing(_) => true
  }

  // What each attempt comes to: the core is masked anew every time, always to the same ledger.
  function AnswersOf(l: Ledger, ask: (nat, string) -> Reply): seq<Result<string, TranslateError>>
    requires AllNamed(l.page.placeholders)
  {
    seq(MAX_ATTEMPTS, k requires 0 <= k < MAX_ATTEMPTS => Answer(l.page, ask(k, l.masked)))
  }

  // From attempt k on, the first answer that is a translation or a failure not to be tried again, or the last one.
  function FirstFinal(answers: seq<Result<string, TranslateError>>, k: nat): Result<string, TranslateError>
    requires k < |answers|
    decreases |answers| - k
  {
    var r := answers[k];
    if r.Err? && IsRetryable(r.error) && k + 1 < |answers| then FirstFinal(answers, k + 1) else r
  }

  // A translation, or a failure of the prompt that another attempt does not mend.
  predicate IsFinal(r: Result<string, TranslateError>) {
    r.Ok? || r.error == PromptFailed(false)
  }

  // There are three attempts, and the first final answer counts; without one it is the third.
  lemma ThreeAttempts(answers: seq<Result<string, TranslateError>>)
    requires |answers| == MAX_ATTEMPTS
    ensures |answers| == 3
    ensures FirstFinal(answers, 0) ==
              if IsFinal(answers[0]) then answers[0] else if IsFinal(answers[1]) then answers[1] else answers[2]
  {
    assert FirstFinal(answers, 2) == answers[2];
    assert FirstFinal(answers, 1) == if IsFinal(answers[1]) then answers[1] else FirstFinal(answers, 2);
  }

  ghost predicate AnswerIs(core: string, ask: (nat, string) -> Reply, code: string -> seq<Span>,
                           angle: string -> seq<Span>, link: string -> seq<Link>, k: nat,
                           r: Result<string, TranslateError>)
    requires Proper(code) && Proper(angle) && ProperLinks(link)
  {
    var l := MaskAll(Opened(core), code, angle, UrlFinder(link));
    AllNamed(l.page.placeholders) && r == Answer(l.page, ask(k, l.masked))
  }

  ghost predicate AnswersAre(core: string, ask: (nat, string) -> Reply, code: string -> seq<Span>,
                             angle: string -> seq<Span>, link: string -> seq<Link>,
                             answers: seq<Result<string, TranslateError>>)
    requires Proper(code) && Proper(angle) && ProperLinks(link)
  {
    && |answers| == MAX_ATTEMPTS
    && forall k: nat {:trigger AnswerIs(core, ask, code, angle, link, k, answers[k])} :: k < MAX_ATTEMPTS ==>
         AnswerIs(core, ask, code, angle, link, k, answers[k])
  }

  method OneAttempt(core: string, ask: (nat, string) -> Reply, attempt: nat, code: string -> seq<Span>,
                    angle: string -> seq<Span>, link: string -> seq<Link>,
                    ghost answers: seq<Result<string, TranslateError>>)
    returns (r: Result<string, TranslateError>)
    requires Proper(code) && Proper(angle) && ProperLinks(link)
    requires AnswersAre(core, ask, code, angle, link, answers) && attempt < MAX_ATTEMPTS
    ensures r == answers[attempt]
  {
    r := Translate(core, masked => ask(attempt, masked), code, angle, link);
    assert AnswerIs(core, ask, code, angle, link, attempt, answers[attempt]);
  }

  method TranslateWithRetry(core: string, ask: (nat, string) -> Reply, code: string -> seq<Span>,
                            angle: string -> seq<Span>, link: string -> seq<Link>,
                            ghost answers: seq<Result<string, TranslateError>>)
    returns (r: Result<string, TranslateError>)
    requires Proper(code) && Proper(angle) && ProperLinks(link)
    requires AnswersAre(core, ask, code, angle, link, answers)
    ensures r == FirstFinal(answers, 0)
  {
    r := Err(EmptyTranslation);
    var attempt: nat := 0;
    while attempt < MAX_ATTEMPTS
      invariant attempt <= MAX_ATTEMPTS
      invariant FirstFinal(answers, 0) == if attempt < MAX_ATTEMPTS then FirstFinal(answers, attempt) else r
    {
      r := OneAttempt(core, ask, attempt, code, angle, link, answers);
      if r.Ok? || !IsRetryable(r.error) {
        return r;
      }
      attempt := attempt + 1;
    }
  }

  // What is put back around the translation of the core; nothing is asked for if there is no core.
  function Spoken(text: string, translated: Result<string, TranslateError>): Result<string, TranslateError> {
    var s := SplitOf(text);
    if s.core == "" then Ok(text)
    else match translated case Ok(t) => Ok(s.prefix + t + s.suffix) case Err(e) => Err(e)
  }

  // White space alone comes back unasked; around anything else it is put back around the translation.
  lemma SpokenIsMeant(before: string, middle: string, behind: string, translated: Result<string, TranslateError>)
    requires AllBlank(before) && AllBlank(behind)
    requires if middle == "" then behind == "" else middle[0] !in BLANKS && middle[|middle| - 1] !in BLANKS
    ensures var r := Spoken(before + middle + behind, translated);
            if middle == "" then r == Ok(before)
            else if translated.Ok? then r == Ok(before + translated.value + behind)
            else r == translated
  {
    SplitIsMeant(before, middle, behind);
    assert before + "" + "" == before;
  }

  method TranslateText(text: string, ask: (nat, string) -> Reply, code: string -> seq<Span>,
                       angle: string -> seq<Span>, link: string -> seq<Link>)
    returns (r: Result<string, TranslateError>)
    requires Proper(code) && Proper(angle) && ProperLinks(link)
    ensures var l := MaskAll(Opened(SplitOf(text).core), code, angle, UrlFinder(link));
            AllNamed(l.page.placeholders) && r == Spoken(text, FirstFinal(AnswersOf(l, ask), 0))
  {
    var prefix, core, suffix := SplitWhitespace(text);
    SplitIsUnique(text, Split(prefix, core, suffix));
    MaskAllIsNamed(Opened(core), code, angle, UrlFinder(link));
    if core == "" {
      return Ok(text);
    }
    ghost var l := MaskAll(Opened(core), code, angle, UrlFinder(link));
    var translated := TranslateWithRetry(core, ask, code, angle, link, AnswersOf(l, ask));
    if translated.Err? {
      return translated;
    }
    return Ok(prefix + translated.value + suffix);
  }

  // ----- an echo

  // A translator that repeats what it is asked, each time.
  ghost predicate Repeats(ask: (nat, string) -> Reply) {
    forall k: nat, s: string :: ask(k, s) == Said(s)
  }

  lemma {:induction false} SameAnswers(answers: seq<Result<string, TranslateError>>,
                                       r: Result<string, TranslateError>, k: nat)
    requires k < |answers| && forall j :: 0 <= j < |answers| ==> answers[j] == r
    ensures FirstFinal(answers, k) == r
    decreases |answers| - k
  {
    if k + 1 < |answers| { SameAnswers(answers, r, k + 1); }
  }

  lemma RepeatedAttempts(l: Ledger, ask: (nat, string) -> Reply)
    requires AllNamed(l.page.placeholders) && Repeats(ask)
    ensures FirstFinal(AnswersOf(l, ask), 0) == Answer(l.page, Said(l.masked))
  {
    SameAnswers(AnswersOf(l, ask), Answer(l.page, Said(l.masked)), 0);
  }

  lemma SplitKeeps(text: string, t: string)
    ensures var s := SplitOf(text); s.prefix + t + s.suffix == text <==> t == s.core
  {
    var s := SplitOf(text);
    FoundSplit(text);
    var a, b := s.prefix + t + s.suffix, s.prefix + s.core + s.suffix;
    if a == b {
      assert |t| == |s.core|;
      assert t == a[|s.prefix|..|s.prefix| + |t|] == b[|s.prefix|..|s.prefix| + |t|] == s.core;
    }
  }

  // A text comes back unchanged exactly if it is nothing but white space, or no stretch taken out of its core holds a
  // placeholder given out and the core has no white space of another kind at either end; asked only of cores that do
  // not mention a number drawn for them.
  lemma EchoTextIff(text: string, ask: (nat, string) -> Reply, code: string -> seq<Span>, angle: string -> seq<Span>,
                    link: string -> seq<Span>)
    requires Repeats(ask) && Proper(code) && Proper(angle) && Proper(link)
    requires var core := SplitOf(text).core;
             Unmentioned(Drawn(core, |MaskAll(Opened(core), code, angle, link).page.placeholders|), core)
    ensures var core := SplitOf(text).core;
            var l := MaskAll(Opened(core), code, angle, link);
            && AllNamed(l.page.placeholders)
            && (Spoken(text, FirstFinal(AnswersOf(l, ask), 0)) == Ok(text) <==>
                  core == "" || (NoneHeld(l.page) && !SpaceAtEnds(core)))
  {
    var core := SplitOf(text).core;
    var l := MaskAll(Opened(core), code, angle, link);
    MaskAllIsNamed(Opened(core), code, angle, link);
    RepeatedAttempts(l, ask);
    if core != "" {
      EchoIff(core, code, angle, link);
      var answer := Answer(l.page, Said(l.masked));
      if answer.Ok? { SplitKeeps(text, answer.value); }
    }
  }

  predicate NoFence(text: string) {
    forall k :: 0 <= k < |text| ==> !IsFence(text[k])
  }

  lemma PlainIsUnmasked(text: string, code: string -> seq<Span>, angle: string -> seq<Span>, link: string -> seq<Span>)
    requires Proper(code) && Proper(angle) && Proper(link) && NoFence(text)
    ensures MaskAll(Opened(text), code, angle, link) == Opened(text)
  {
    assert Ordered(text, code(text), 0, 0) && Ordered(text, angle(text), 0, 0) && Ordered(text, link(text), 0, 0);
    NothingToMask(Opened(text));
  }

  lemma PlainAnswer(text: string, t: string)
    requires TrimSpace(text) == t && t != ""
    ensures Answer(Opened(text).page, Said(text)) == Ok(t)
  {
  }

  lemma NoBreakSpaceIsTrimmed(text: string)
    requires text == "\U{00A0}x"
    ensures TrimSpace(text) == "x" && SplitOf(text) == Split("", text, "")
  {
    assert text[1..] == "x";
    assert TrimLeft("x") == "x" && TrimRight("x") == "x";
    assert "" + text + "" == text;
    SplitIsUnique(text, Split("", text, ""));
  }

  // A no-break space in front of a word is white space to strings.TrimSpace, but is not set aside before.
  lemma NoBreakSpaceIsLost(text: string, ask: (nat, string) -> Reply, code: string -> seq<Span>,
                           angle: string -> seq<Span>, link: string -> seq<Span>)
    requires text == "\U{00A0}x" && Repeats(ask) && Proper(code) && Proper(angle) && Proper(link)
    ensures var l := MaskAll(Opened(SplitOf(text).core), code, angle, link);
            AllNamed(l.page.placeholders) && Spoken(text, FirstFinal(AnswersOf(l, ask), 0)) == Ok("x")
  {
    NoBreakSpaceIsTrimmed(text);
    PlainIsUnmasked(text, code, angle, link);
    RepeatedAttempts(Opened(text), ask);
    PlainAnswer(text, "x");
    assert "" + "x" + "" == "x";
  }
}
