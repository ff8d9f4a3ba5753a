/** The output a process session keeps: pending chunks per stream, capped in place, and the last characters of it all. */
module OutputBuffer {
  import opened Text
  import opened Utf16

  const DEFAULT_PENDING: nat := 30_000
  const TAIL: nat := 2000

  datatype Stream = Stdout | Stderr

  // ----- chunk lists

  function Joined(chunks: seq<Units>): Units {
    if chunks == [] then [] else chunks[0] + Joined(chunks[1..])
  }

  lemma {:induction false} JoinedAppend(a: seq<Units>, b: seq<Units>)
    ensures Joined(a + b) == Joined(a) + Joined(b)
  {
    if a == [] {
      assert a + b == b;
    } else {
      assert (a + b)[1..] == a[1..] + b;
      JoinedAppend(a[1..], b);
    }
  }

  lemma JoinedPush(a: seq<Units>, c: Units)
    ensures Joined(a + [c]) == Joined(a) + c
  {
    JoinedAppend(a, [c]);
    assert Joined([c]) == c + Joined([]);
  }

  // The last n characters.
  function LastOf(s: Units, n: nat): Units {
    if |s| <= n then s else s[|s| - n..]
  }

  // Forgetting all but the last n characters, now and then, forgets nothing else.
  lemma LastOfLast(s: Units, t: Units, n: nat)
    ensures LastOf(LastOf(s, n) + t, n) == LastOf(s + t, n)
  {
    var u := LastOf(s, n);
    var k := |s| - |u|;
    assert u + t == (s + t)[k..];
    if |u + t| > n {
      assert (s + t)[k..][|u + t| - n..] == (s + t)[|s + t| - n..];
    }
  }

  // Keeping the last characters may cut a surrogate pair: well-formed text stays so exactly if it does not.
  lemma LastOfWellFormedIff(s: Units, n: nat)
    requires WellFormed(s)
    ensures WellFormed(LastOf(s, n)) <==> |s| <= n || !SplitsPair(s, |s| - n)
  {
    if |s| > n {
      var k := |s| - n;
      if SplitsPair(s, k) {
        assert Lone(s[k..], 0);
      } else {
        forall i | 0 <= i < n ensures !Lone(s[k..], i) { LoneInRest(s, k, i); }
      }
    }
  }

  lemma CutFirst(chunks: seq<Units>, n: nat)
    requires chunks != [] && |Joined(chunks)| - |chunks[0]| < n < |Joined(chunks)|
    ensures |Joined(chunks)| - n <= |chunks[0]|
    ensures Joined(chunks[0 := chunks[0][|Joined(chunks)| - n..]]) == LastOf(Joined(chunks), n)
  {
    var c, r := chunks[0], Joined(chunks[1..]);
    var k := |Joined(chunks)| - n;
    assert c + r == Joined(chunks);
    assert chunks[0 := c[k..]][1..] == chunks[1..];
    assert c[k..] + r == (c + r)[k..];
  }

  lemma {:induction false} LastChunkIsEnough(chunks: seq<Units>, n: nat)
    requires chunks != [] && |chunks[|chunks| - 1]| >= n
    ensures LastOf(Joined(chunks), n) == LastOf(chunks[|chunks| - 1], n)
  {
    var init, c := chunks[..|chunks| - 1], chunks[|chunks| - 1];
    assert chunks == init + [c];
    JoinedPush(init, c);
    var j := Joined(init);
    assert (j + c)[|j + c| - n..] == c[|c| - n..];
  }

  method CapPendingBuffer(chunks: seq<Units>, chars: nat, cap: nat) returns (buffer: seq<Units>, pendingChars: nat)
    requires chars == |Joined(chunks)|
    ensures Joined(buffer) == LastOf(Joined(chunks), cap)
    ensures pendingChars == |Joined(buffer)|
  {
    buffer, pendingChars := chunks, chars;
    if pendingChars <= cap {
      return;
    }
    // An empty last chunk counts as none.
    if buffer != [] && buffer[|buffer| - 1] != [] && |buffer[|buffer| - 1]| >= cap {
      var last := buffer[|buffer| - 1];
      LastChunkIsEnough(buffer, cap);
      buffer := [last[|last| - cap..]];
      JoinedPush([], last[|last| - cap..]);
      assert [] + [last[|last| - cap..]] == buffer;
      return buffer, cap;
    }
    while buffer != [] && pendingChars - |buffer[0]| >= cap
      invariant pendingChars == |Joined(buffer)| >= cap
      invariant LastOf(Joined(buffer), cap) == LastOf(Joined(chunks), cap)
      decreases |buffer|
    {
      pendingChars := pendingChars - |buffer[0]|;
      buffer := buffer[1..];
    }
    if buffer != [] && pendingChars > cap {
      CutFirst(buffer, cap);
      var overflow := pendingChars - cap;
      buffer := buffer[0 := buffer[0][overflow..]];
      pendingChars := cap;
    }
  }

  // What is kept ends the text, and is as long as the text and the cap allow.
  method TrimWithCap(text: Units, max: nat) returns (r: Units)
    ensures |r| == Min(|text|, max) && r == text[|text| - |r|..]
    ensures r == LastOf(text, max)
  {
    if |text| <= max {
      return text;
    }
    r := text[|text| - max..];
  }

  // ----- a session

  datatype Caps = Caps(max: nat, pendingMax: Option<nat>) {
    function Pending(): nat {
      Min(if pendingMax.None? then DEFAULT_PENDING else pendingMax.value, max)
    }
  }

  datatype View = View(out: Units, err: Units, aggregated: Units, tail: Units, total: nat, truncated: bool)

  function PendingOf(v: View, s: Stream): Units {
    match s
    case Stdout => v.out
    case Stderr => v.err
  }

  function WithPending(v: View, s: Stream, p: Units): View {
    match s
    case Stdout => v.(out := p)
    case Stderr => v.(err := p)
  }

  function Appended(c: Caps, v: View, s: Stream, chunk: Units): View {
    var pending := PendingOf(v, s) + chunk;
    var aggregated := v.aggregated + chunk;
    WithPending(v, s, LastOf(pending, c.Pending())).(
      aggregated := LastOf(aggregated, c.max),
      tail := LastOf(LastOf(aggregated, c.max), TAIL),
      total := v.total + |chunk|,
      truncated := v.truncated || |pending| > c.Pending() || |aggregated| > c.max)
  }

  function Drained(v: View): View {
    v.(out := [], err := [])
  }

  class ProcessSession {
    const caps: Caps
    var pendingStdout: seq<Units>
    var pendingStderr: seq<Units>
    var pendingStdoutChars: nat
    var pendingStderrChars: nat
    var aggregated: Units
    var tail: Units
    var totalOutputChars: nat
    var truncated: bool

    constructor (caps: Caps)
      ensures Valid() && this.caps == caps && Seen() == View([], [], [], [], 0, false)
    {
      this.caps := caps;
      pendingStdout, pendingStderr, pendingStdoutChars, pendingStderrChars := [], [], 0, 0;
      aggregated, tail, totalOutputChars, truncated := [], [], 0, false;
    }

    predicate Valid()
      reads this
    {
      pendingStdoutChars == |Joined(pendingStdout)| && pendingStderrChars == |Joined(pendingStderr)|
    }

    function Seen(): View
      reads this
    {
      View(Joined(pendingStdout), Joined(pendingStderr), aggregated, tail, totalOutputChars, truncated)
    }

    method AppendOutput(stream: Stream, chunk: Units)
      requires Valid()
      modifies this
      ensures Valid() && Seen() == Appended(caps, old(Seen()), stream, chunk)
    {
      AppendPending(stream, chunk);
      AppendAggregated(chunk);
    }

    // The chunk joins its stream's list, which is then cut back to the cap.
    method AppendPending(stream: Stream, chunk: Units)
      requires Valid()
      modifies `pendingStdout, `pendingStderr, `pendingStdoutChars, `pendingStderrChars, `truncated
      ensures Valid()
      ensures var pending := PendingOf(old(Seen()), stream) + chunk;
              Seen() == WithPending(old(Seen()), stream, LastOf(pending, caps.Pending()))
                        .(truncated := old(truncated) || |pending| > caps.Pending())
    {
      var buffer := if stream == Stdout then pendingStdout else pendingStderr;
      var bufferChars := if stream == Stdout then pendingStdoutChars else pendingStderrChars;
      JoinedPush(buffer, chunk);
      var pendingCap := caps.Pending();
      buffer := buffer + [chunk];
      var pendingChars := bufferChars + |chunk|;
      if pendingChars > pendingCap {
        truncated := true;
        buffer, pendingChars := CapPendingBuffer(buffer, pendingChars, pendingCap);
      }
      if stream == Stdout {
        pendingStdout, pendingStdoutChars := buffer, pendingChars;
      } else {
        pendingStderr, pendingStderrChars := buffer, pendingChars;
      }
    }

    method AppendAggregated(chunk: Units)
      modifies `totalOutputChars, `truncated, `aggregated, `tail
      ensures totalOutputChars == old(totalOutputChars) + |chunk|
      ensures aggregated == LastOf(old(aggregated) + chunk, caps.max) && tail == LastOf(aggregated, TAIL)
      ensures truncated == (old(truncated) || |old(aggregated) + chunk| > caps.max)
    {
      totalOutputChars := totalOutputChars + |chunk|;
      var kept := TrimWithCap(aggregated + chunk, caps.max);
      truncated := truncated || |kept| < |aggregated| + |chunk|;
      aggregated := kept;
      tail := TrimWithCap(aggregated, TAIL);
    }

    method DrainSession() returns (stdout: Units, stderr: Units)
      requires Valid()
      modifies this
      ensures Valid() && Seen() == Drained(old(Seen()))
      ensures stdout == old(Seen()).out && stderr == old(Seen()).err
    {
      stdout, stderr := Joined(pendingStdout), Joined(pendingStderr);
      pendingStdout, pendingStderr := [], [];
      pendingStdoutChars, pendingStderrChars := 0, 0;
    }
  }

  // ----- any sequence of appends and drains

  datatype Event = Append(stream: Stream, chunk: Units) | Drain

  function After(c: Caps, es: seq<Event>): View {
    if es == [] then View([], [], [], [], 0, false)
    else
      var v := After(c, es[..|es| - 1]);
      match es[|es| - 1]
      case Append(s, chunk) => Appended(c, v, s, chunk)
      case Drain => Drained(v)
  }

  // All that was appended, to one stream or to both.
  function AllOutput(es: seq<Event>): Units {
    if es == [] then []
    else AllOutput(es[..|es| - 1]) + match es[|es| - 1] case Append(s, chunk) => chunk case Drain => []
  }

  function StreamOutput(es: seq<Event>, s: Stream): Units {
    if es == [] then []
    else
      StreamOutput(es[..|es| - 1], s)
      + match es[|es| - 1] case Append(t, chunk) => (if t == s then chunk else []) case Drain => []
  }

  // What was appended to a stream since the last drain.
  function SinceDrain(es: seq<Event>, s: Stream): Units {
    if es == [] || es[|es| - 1].Drain? then []
    else SinceDrain(es[..|es| - 1], s) + if es[|es| - 1].stream == s then es[|es| - 1].chunk else []
  }

  // What the drains handed out of a stream.
  function Delivered(c: Caps, es: seq<Event>, s: Stream): Units {
    if es == [] then []
    else
      var before := es[..|es| - 1];
      Delivered(c, before, s) + if es[|es| - 1].Drain? then PendingOf(After(c, before), s) else []
  }

  lemma {:induction false} PendingIsLast(c: Caps, es: seq<Event>, s: Stream)
    ensures PendingOf(After(c, es), s) == LastOf(SinceDrain(es, s), c.Pending())
  {
    if es != [] {
      var before, last := es[..|es| - 1], es[|es| - 1];
      PendingIsLast(c, before, s);
      if last.Append? && last.stream == s {
        LastOfLast(SinceDrain(before, s), last.chunk, c.Pending());
      } else if last.Append? {
        assert SinceDrain(before, s) + [] == SinceDrain(before, s);
      }
    }
  }

  lemma {:induction false} AggregatedIsLast(c: Caps, es: seq<Event>)
    ensures After(c, es).aggregated == LastOf(AllOutput(es), c.max)
    ensures After(c, es).tail == LastOf(AllOutput(es), Min(c.max, TAIL))
    ensures After(c, es).total == |AllOutput(es)|
  {
    if es != [] {
      var before, last := es[..|es| - 1], es[|es| - 1];
      AggregatedIsLast(c, before);
      if last.Append? {
        LastOfLast(AllOutput(before), last.chunk, c.max);
        LastOfTwo(AllOutput(es), c.max, TAIL);
      } else {
        assert AllOutput(before) + [] == AllOutput(before);
      }
    }
  }

  lemma LastOfTwo(s: Units, m: nat, n: nat)
    ensures LastOf(LastOf(s, m), n) == LastOf(s, Min(m, n))
  {
  }

  // The last n characters of a text, or the whole text if it has no more.
  predicate IsEnd(text: Units, kept: Units, n: nat) {
    |kept| == (if |text| < n then |text| else n) && kept == text[|text| - |kept|..]
  }

  lemma LastIsEnd(text: Units, n: nat)
    ensures IsEnd(text, LastOf(text, n), n)
  {
  }

  // What is pending ends what came since the last drain and has at most `pendingMax` characters, 30000 if that is not
  // given, and at most `max`.
  lemma PendingIsMeant(max: nat, pendingMax: Option<nat>, es: seq<Event>, s: Stream, asked: nat)
    requires pendingMax == Some(asked) || (pendingMax == None && asked == 30000)
    ensures var pending := PendingOf(After(Caps(max, pendingMax), es), s);
            if asked <= max then IsEnd(SinceDrain(es, s), pending, asked) else IsEnd(SinceDrain(es, s), pending, max)
  {
    var c := Caps(max, pendingMax);
    PendingIsLast(c, es, s);
    LastIsEnd(SinceDrain(es, s), c.Pending());
  }

  // The aggregated text ends all the output and has at most `max` characters; the tail ends the aggregated text and has
  // at most 2000 of them.
  lemma AggregatedIsMeant(c: Caps, es: seq<Event>)
    ensures var v := After(c, es);
            IsEnd(AllOutput(es), v.aggregated, c.max) && IsEnd(v.aggregated, v.tail, 2000) && v.total == |AllOutput(es)|
  {
    AggregatedIsLast(c, es);
    LastIsEnd(AllOutput(es), c.max);
    LastIsEnd(LastOf(AllOutput(es), c.max), TAIL);
    LastOfTwo(AllOutput(es), c.max, TAIL);
  }

  // What has come out of a stream or is waiting to.
  function Kept(c: Caps, es: seq<Event>, s: Stream): Units {
    Delivered(c, es, s) + PendingOf(After(c, es), s)
  }

  // Whether the pending text of a stream ever outgrew its cap.
  predicate Overflowed(c: Caps, es: seq<Event>, s: Stream) {
    es != [] && (Overflowed(c, es[..|es| - 1], s) || |SinceDrain(es, s)| > c.Pending())
  }

  lemma KeptByAppend(given: Units, pending: Units, chunk: Units, all: Units, cap: nat)
    requires |given + pending| <= |all|
    ensures |given + LastOf(pending + chunk, cap)| <= |all + chunk|
    ensures given + LastOf(pending + chunk, cap) == all + chunk <==> given + pending == all && |pending + chunk| <= cap
  {
    if |pending + chunk| <= cap {
      assert given + (pending + chunk) == given + pending + chunk;
      if given + pending + chunk == all + chunk {
        assert |given + pending| == |all|;
        assert given + pending == (given + pending + chunk)[..|all|] == all;
      }
    }
  }

  lemma {:induction false} KeptIffNoOverflow(c: Caps, es: seq<Event>, s: Stream)
    ensures |Kept(c, es, s)| <= |StreamOutput(es, s)|
    ensures Kept(c, es, s) == StreamOutput(es, s) <==> !Overflowed(c, es, s)
    decreases |es|
  {
    if es != [] {
      KeptIffNoOverflow(c, es[..|es| - 1], s);
      if es[|es| - 1].Append? {
        KeptAfterAppend(c, es, s, if es[|es| - 1].stream == s then es[|es| - 1].chunk else []);
      } else {
        KeptAfterDrain(c, es, s);
      }
    }
  }

  lemma KeptAfterDrain(c: Caps, es: seq<Event>, s: Stream)
    requires es != [] && es[|es| - 1].Drain?
    ensures Kept(c, es, s) == Kept(c, es[..|es| - 1], s)
    ensures StreamOutput(es, s) == StreamOutput(es[..|es| - 1], s)
    ensures Overflowed(c, es, s) <==> Overflowed(c, es[..|es| - 1], s)
  {
    assert PendingOf(After(c, es), s) == [];
  }

  lemma {:induction false} KeptAfterAppend(c: Caps, es: seq<Event>, s: Stream, chunk: Units)
    requires es != [] && es[|es| - 1].Append?
    requires chunk == if es[|es| - 1].stream == s then es[|es| - 1].chunk else []
    requires |Kept(c, es[..|es| - 1], s)| <= |StreamOutput(es[..|es| - 1], s)|
    requires Kept(c, es[..|es| - 1], s) == StreamOutput(es[..|es| - 1], s) <==> !Overflowed(c, es[..|es| - 1], s)
    ensures |Kept(c, es, s)| <= |StreamOutput(es, s)|
    ensures Kept(c, es, s) == StreamOutput(es, s) <==> !Overflowed(c, es, s)
  {
    var before := es[..|es| - 1];
    var pending, all := PendingOf(After(c, before), s), StreamOutput(before, s);
    OverflowStep(c, before, es, s, chunk);
    KeptByAppend(Delivered(c, before, s), pending, chunk, all, c.Pending());
    assert Delivered(c, es, s) == Delivered(c, before, s);
    assert StreamOutput(es, s) == all + chunk;
  }

  // If nothing overflowed before, the pending text is all that came since the last drain.
  lemma {:induction false} OverflowStep(c: Caps, before: seq<Event>, es: seq<Event>, s: Stream, chunk: Units)
    requires es != [] && es[..|es| - 1] == before && es[|es| - 1].Append?
    requires chunk == if es[|es| - 1].stream == s then es[|es| - 1].chunk else []
    ensures SinceDrain(es, s) == SinceDrain(before, s) + chunk
    ensures !Overflowed(c, before, s) ==>
              (Overflowed(c, es, s) <==> |PendingOf(After(c, before), s) + chunk| > c.Pending())
  {
    PendingIsLast(c, before, s);
    if before == [] {
      assert SinceDrain(before, s) == [];
    }
  }

  lemma {:induction false} TruncatedWhen(c: Caps, es: seq<Event>)
    ensures After(c, es).truncated <==>
              Overflowed(c, es, Stdout) || Overflowed(c, es, Stderr) || |AllOutput(es)| > c.max
  {
    if es != [] {
      var before, last := es[..|es| - 1], es[|es| - 1];
      TruncatedWhen(c, before);
      AggregatedIsLast(c, before);
      if last.Append? {
        OverflowStep(c, before, es, Stdout, if last.stream == Stdout then last.chunk else []);
        OverflowStep(c, before, es, Stderr, if last.stream == Stderr then last.chunk else []);
        PendingIsLast(c, before, Stdout);
        PendingIsLast(c, before, Stderr);
        TruncatedStep(c, After(c, before), last.stream, last.chunk);
      } else {
        KeptAfterDrain(c, es, Stdout);
        KeptAfterDrain(c, es, Stderr);
      }
    }
  }

  lemma TruncatedStep(c: Caps, v: View, s: Stream, chunk: Units)
    ensures Appended(c, v, s, chunk).truncated <==>
              v.truncated || |PendingOf(v, s)| + |chunk| > c.Pending() || |v.aggregated| + |chunk| > c.max
  {
  }

  // The flag says exactly whether something was lost: not truncated means that what was drained and what is
  // pending make up each stream, and that the aggregated text is all the output.
  lemma {:induction false} TruncatedIffLost(c: Caps, es: seq<Event>)
    ensures !After(c, es).truncated <==>
              && After(c, es).aggregated == AllOutput(es)
              && Kept(c, es, Stdout) == StreamOutput(es, Stdout)
              && Kept(c, es, Stderr) == StreamOutput(es, Stderr)
  {
    TruncatedWhen(c, es);
    KeptIffNoOverflow(c, es, Stdout);
    KeptIffNoOverflow(c, es, Stderr);
    AggregatedIsLast(c, es);
  }
}
