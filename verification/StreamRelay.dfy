/** The generator that relays a miner's stream to a client as server-sent events.

    The generator is consumed to its end.  Everything outside is an input: what the Dendrite call gave,
    each item with the moment it arrived, whether the client had gone by then and which call, if any,
    raised while the item was handled, and how the stream ended.
 */
module StreamRelay {
  import opened Options
  import opened MinerScoring

  datatype Fault = TimedOut | Broke

  /** A call that raises while an item is handled. */
  datatype Hitch = PollRaises(fault: Fault) | TextRaises(fault: Fault) | FormatRaises(fault: Fault)

  datatype Item = Item(elapsedMs: nat, gone: bool, text: string, hitch: Option<Hitch>)

  datatype Ending = Exhausted | Raised(fault: Fault)

  datatype Reply = Unanswered(fault: Fault) | NoResponses | Streaming(items: seq<Item>, ending: Ending)

  /** The four error events: the first and the last are gateway timeouts, the others bad gateways. */
  datatype Trouble = MinerTimedOut | CommunicationError | EmptyResponse | TimedOutMidStream

  datatype Emission =
    | Ttft(ms: nat)
    | Content(text: string, role: bool)
    | Error(trouble: Trouble)
    | StopAndDone
    | Done

  // ---------- what a reply should turn into ----------

  /** What handling an item raises; the client is polled only when it is `watched`. */
  function RaisedBy(item: Item, watched: bool): Option<Fault> {
    match item.hitch
    case None => None
    case Some(PollRaises(f)) => if watched then Some(f) else None
    case Some(TextRaises(f)) => if watched && item.gone then None else Some(f)
    case Some(FormatRaises(f)) => if (watched && item.gone) || item.text == "" then None else Some(f)
  }

  predicate Leaves(item: Item, watched: bool) {
    watched && item.gone && !(item.hitch.Some? && item.hitch.value.PollRaises?)
  }

  predicate Passes(item: Item, watched: bool) {
    !Leaves(item, watched) && RaisedBy(item, watched).None?
  }

  /** How many items are relayed before one ends the loop. */
  function Relayed(items: seq<Item>, watched: bool): (n: nat)
    ensures n <= |items| && (forall i | 0 <= i < n :: Passes(items[i], watched))
    ensures n < |items| ==> !Passes(items[n], watched)
  {
    if items == [] || !Passes(items[0], watched) then 0 else 1 + Relayed(items[1..], watched)
  }

  datatype Outcome = Completed | Faulted(fault: Fault) | Left

  function OutcomeOf(items: seq<Item>, ending: Ending, watched: bool): Outcome {
    var n := Relayed(items, watched);
    if n == |items| then (if ending.Exhausted? then Completed else Faulted(ending.fault))
    else if Leaves(items[n], watched) then Left
    else Faulted(RaisedBy(items[n], watched).value)
  }

  /** The items with something to show; one whose rendering raises has been announced before that. */
  function Shown(items: seq<Item>): seq<Item> {
    if items == [] then []
    else Shown(items[..|items| - 1]) + if items[|items| - 1].text == "" then [] else [items[|items| - 1]]
  }

  predicate RendersBadly(item: Item, watched: bool) {
    RaisedBy(item, watched).Some? && item.hitch.value.FormatRaises?
  }

  /** The latency comment, then one content line per item, the first naming the role. */
  function Lines(shown: seq<Item>): seq<Emission> {
    if shown == [] then []
    else
      var (before, item) := (shown[..|shown| - 1], shown[|shown| - 1]);
      if before == [] then [Ttft(item.elapsedMs), Content(item.text, true)]
      else Lines(before) + [Content(item.text, false)]
  }

  /** All that is sent before the closing; an item whose rendering raises may leave the comment behind. */
  function Body(items: seq<Item>, watched: bool): seq<Emission> {
    var n := Relayed(items, watched);
    var shown := Shown(items[..n]);
    if shown == [] && n < |items| && RendersBadly(items[n], watched) then [Ttft(items[n].elapsedMs)] else Lines(shown)
  }

  /** What one item sends, before or instead of raising; `first` tells whether nothing has been shown yet. */
  function Sent(item: Item, watched: bool, first: bool): seq<Emission> {
    var comment := if first then [Ttft(item.elapsedMs)] else [];
    if RendersBadly(item, watched) then comment
    else if Passes(item, watched) && item.text != "" then comment + [Content(item.text, first)] else []
  }

  function MidStream(f: Fault): Emission {
    Error(if f.TimedOut? then TimedOutMidStream else CommunicationError)
  }

  function Closing(o: Outcome): seq<Emission> {
    match o
    case Completed => [StopAndDone]
    case Faulted(f) => [MidStream(f), Done]
    case Left => []
  }

  function Emitted(reply: Reply, watched: bool): seq<Emission> {
    match reply
    case Unanswered(f) => [Error(if f.TimedOut? then MinerTimedOut else CommunicationError), Done]
    case NoResponses => [Error(EmptyResponse), Done]
    case Streaming(items, ending) =>
      Body(items, watched) + Closing(OutcomeOf(items, ending, watched))
  }

  predicate ClientLeft(reply: Reply, watched: bool) {
    reply.Streaming? && OutcomeOf(reply.items, reply.ending, watched).Left?
  }

  /** The one observation made of the miner, success or not; none when the client left. */
  function Rating(reply: Reply, watched: bool): Option<bool> {
    if ClientLeft(reply, watched) then None
    else Some(reply.Streaming? && OutcomeOf(reply.items, reply.ending, watched).Completed?)
  }

  // ---------- what the client is told, in terms of the reply alone ----------

  /** The loop is left at item `n`, or after the last one. */
  predicate StopsAt(items: seq<Item>, watched: bool, n: nat) {
    n <= |items| && (forall i | 0 <= i < n :: Passes(items[i], watched)) && (n < |items| ==> !Passes(items[n], watched))
  }

  /** The stream ends in fault `f`: its own, or that of the item that stops it. */
  ghost predicate BreaksOff(reply: Reply, watched: bool, f: Fault) {
    reply.Streaming? && exists n: nat :: StopsAt(reply.items, watched, n) && FaultAt(reply, watched, n, f)
  }

  predicate FaultAt(reply: Reply, watched: bool, n: nat, f: Fault)
    requires reply.Streaming?
  {
    if n < |reply.items| then RaisedBy(reply.items[n], watched) == Some(f) else reply.ending == Raised(f)
  }

  /** The contents sent, in order. */
  function Texts(out: seq<Emission>): seq<string> {
    if out == [] then []
    else Texts(out[..|out| - 1]) + if out[|out| - 1].Content? then [out[|out| - 1].text] else []
  }

  /** The chunks that are not empty, in order. */
  function Chunks(items: seq<Item>): seq<string> {
    if items == [] then []
    else Chunks(items[..|items| - 1]) + if items[|items| - 1].text != "" then [items[|items| - 1].text] else []
  }

  /** Item `k` is the first that is not empty, and is relayed or at least comes to be rendered. */
  predicate ComesFirst(items: seq<Item>, watched: bool, n: nat, k: nat) {
    && k < |items| && k <= n && items[k].text != "" && (forall i | 0 <= i < k :: items[i].text == "")
    && (k == n ==> RaisedBy(items[k], watched).Some? && items[k].hitch.value.FormatRaises?)
  }

  ghost predicate AnnouncedBy(items: seq<Item>, watched: bool, n: nat, ms: nat) {
    exists k: nat :: ComesFirst(items, watched, n, k) && items[k].elapsedMs == ms
  }

  /** The client is shown the chunks before the stop, after the latency of the first of them. */
  ghost predicate ShowsChunks(items: seq<Item>, watched: bool, out: seq<Emission>) {
    exists n: nat :: StopsAt(items, watched, n) && ShowsUpTo(items, watched, n, out)
  }

  ghost predicate ShowsUpTo(items: seq<Item>, watched: bool, n: nat, out: seq<Emission>) {
    && n <= |items| && Texts(out) == Chunks(items[..n])
    && forall ms :: Ttft(ms) in out <==> AnnouncedBy(items, watched, n, ms)
  }

  lemma {:induction false} TextsConcat(a: seq<Emission>, b: seq<Emission>)
    ensures Texts(a + b) == Texts(a) + Texts(b)
  {
    if b == [] {
      assert a + b == a;
    } else {
      var rest := b[..|b| - 1];
      TextsConcat(a, rest);
      assert (a + b)[..|a + b| - 1] == a + rest;
    }
  }

  lemma TextsNext(out: seq<Emission>, e: Emission)
    ensures Texts(out + [e]) == if e.Content? then Texts(out) + [e.text] else Texts(out)
  {
    assert (out + [e])[..|out|] == out;
  }

  lemma LinesShowNext(shown: seq<Item>, item: Item)
    ensures Texts(Lines(shown + [item])) == Texts(Lines(shown)) + [item.text]
  {
    var before := Lines(shown);
    var comment, line := Ttft(item.elapsedMs), Content(item.text, shown == []);
    LinesGrow(shown, item);
    TextsNext(before, comment);
    if shown == [] {
      TextsNext(before + [comment], line);
      assert Lines(shown + [item]) == before + [comment] + [line];
    } else {
      TextsNext(before, line);
      assert Lines(shown + [item]) == before + [line];
    }
  }

  lemma ChunksGrow(items: seq<Item>, i: nat)
    requires i < |items|
    ensures Chunks(items[..i + 1]) == if items[i].text == "" then Chunks(items[..i]) else Chunks(items[..i]) + [items[i].text]
  {
    assert items[..i + 1][..i] == items[..i];
  }

  lemma LinesShowItem(shown: seq<Item>, chunks: seq<string>, item: Item)
    requires Texts(Lines(shown)) == chunks
    ensures Texts(Lines(if item.text == "" then shown else shown + [item])) ==
      if item.text == "" then chunks else chunks + [item.text]
  {
    if item.text != "" {
      LinesShowNext(shown, item);
    }
  }

  lemma {:induction false} LinesShowChunks(items: seq<Item>, i: nat)
    requires i <= |items|
    ensures Texts(Lines(Shown(items[..i]))) == Chunks(items[..i])
  {
    if i > 0 {
      LinesShowChunks(items, i - 1);
      ChunksGrow(items, i - 1);
      ShownGrows(items, i - 1);
      LinesShowItem(Shown(items[..i - 1]), Chunks(items[..i - 1]), items[i - 1]);
    }
  }

  predicate FirstNonEmpty(items: seq<Item>, k: nat) {
    k <= |items| && (forall i | 0 <= i < k :: items[i].text == "") && (k < |items| ==> items[k].text != "")
  }

  lemma {:induction false} FindNonEmpty(items: seq<Item>, from: nat) returns (k: nat)
    requires from <= |items| && forall i | 0 <= i < from :: items[i].text == ""
    ensures FirstNonEmpty(items, k)
    decreases |items| - from
  {
    if from < |items| && items[from].text == "" {
      k := FindNonEmpty(items, from + 1);
    } else {
      k := from;
    }
  }

  lemma FirstStays(shown: seq<Item>, item: Item)
    ensures (shown + [item])[0] == if shown == [] then item else shown[0]
  {
  }

  /** The first item shown is the first that is not empty. */
  lemma {:induction false} FirstShown(items: seq<Item>, k: nat, n: nat)
    requires FirstNonEmpty(items, k) && n <= |items|
    ensures if n <= k then Shown(items[..n]) == [] else Shown(items[..n]) != [] && Shown(items[..n])[0] == items[k]
  {
    if n > 0 {
      var i := n - 1;
      FirstShown(items, k, i);
      ShownGrows(items, i);
      FirstStays(Shown(items[..i]), items[i]);
    }
  }

  lemma {:induction false} LinesAnnounce(shown: seq<Item>, ms: nat)
    ensures Ttft(ms) in Lines(shown) <==> shown != [] && shown[0].elapsedMs == ms
  {
    if |shown| > 1 {
      LinesAnnounce(shown[..|shown| - 1], ms);
    }
  }

  lemma {:induction false} LinesHaveNoTrouble(shown: seq<Item>)
    ensures forall e | e in Lines(shown) :: e.Ttft? || e.Content?
  {
    if |shown| > 1 {
      LinesHaveNoTrouble(shown[..|shown| - 1]);
    }
  }

  lemma AnnouncedByFirst(items: seq<Item>, watched: bool, n: nat, k: nat, ms: nat)
    requires FirstNonEmpty(items, k) && n <= |items|
    ensures AnnouncedBy(items, watched, n, ms) <==> ComesFirst(items, watched, n, k) && items[k].elapsedMs == ms
  {
    forall j: nat | ComesFirst(items, watched, n, j) ensures j == k {}
  }

  /** What the first item to show announces is in the body, and nothing else is. */
  lemma BodyAnnounces(items: seq<Item>, watched: bool, ms: nat)
    ensures Ttft(ms) in Body(items, watched) <==> AnnouncedBy(items, watched, Relayed(items, watched), ms)
  {
    var n := Relayed(items, watched);
    var k := FindNonEmpty(items, 0);
    FirstShown(items, k, n);
    AnnouncedByFirst(items, watched, n, k, ms);
    LinesAnnounce(Shown(items[..n]), ms);
  }

  lemma BodyShowsChunks(items: seq<Item>, watched: bool)
    ensures StopsAt(items, watched, Relayed(items, watched))
    ensures ShowsUpTo(items, watched, Relayed(items, watched), Body(items, watched))
  {
    var n := Relayed(items, watched);
    LinesShowChunks(items, n);
    forall ms ensures Ttft(ms) in Body(items, watched) <==> AnnouncedBy(items, watched, n, ms) {
      BodyAnnounces(items, watched, ms);
    }
    if Body(items, watched) != Lines(Shown(items[..n])) {
      assert Texts([Ttft(items[n].elapsedMs)]) == [] == Texts(Lines([]));
    }
  }

  /** What becomes of one item: first the poll, then whether the client has gone, then the text, and only if
      there is one the latency comment and the rendering. */
  lemma ItemFate(item: Item, watched: bool, first: bool)
    ensures var (gone, raised, sent) := (Leaves(item, watched), RaisedBy(item, watched), Sent(item, watched, first));
      var comment := if first then [Ttft(item.elapsedMs)] else [];
      match item.hitch
      case Some(PollRaises(f)) => !gone && (if watched then raised == Some(f) && sent == [] else raised == None)
      case Some(TextRaises(f)) =>
        sent == [] && (if watched && item.gone then gone && raised == None else !gone && raised == Some(f))
      case Some(FormatRaises(f)) =>
        if watched && item.gone then gone && raised == None && sent == []
        else if item.text == "" then !gone && raised == None && sent == []
        else !gone && raised == Some(f) && sent == comment
      case None =>
        raised == None && gone == (watched && item.gone) &&
        sent == if gone || item.text == "" then [] else comment + [Content(item.text, first)]
  {
  }

  lemma ClosingAddsNoChunks(items: seq<Item>, watched: bool, n: nat, body: seq<Emission>, closing: seq<Emission>)
    requires ShowsUpTo(items, watched, n, body) && forall e | e in closing :: !e.Content? && !e.Ttft?
    ensures ShowsUpTo(items, watched, n, body + closing)
  {
    TextsConcat(body, closing);
    NoTexts(closing);
    forall ms ensures Ttft(ms) in body + closing <==> Ttft(ms) in body {}
  }

  lemma {:induction false} NoTexts(out: seq<Emission>)
    requires forall e | e in out :: !e.Content?
    ensures Texts(out) == []
  {
    if out != [] {
      assert out[|out| - 1] in out;
      NoTexts(out[..|out| - 1]);
    }
  }

  lemma BodyHasNoTrouble(items: seq<Item>, watched: bool)
    ensures forall e | e in Body(items, watched) :: e.Ttft? || e.Content?
  {
    LinesHaveNoTrouble(Shown(items[..Relayed(items, watched)]));
  }

  lemma StopsOnce(items: seq<Item>, watched: bool, n: nat)
    requires StopsAt(items, watched, n)
    ensures n == Relayed(items, watched)
  {
    RelayedStopsAt(items, watched, n);
  }

  /** How the loop and the stream ended, read off the reply. */
  lemma BreaksOffIsFaulted(items: seq<Item>, ending: Ending, watched: bool, f: Fault)
    ensures BreaksOff(Streaming(items, ending), watched, f) <==> OutcomeOf(items, ending, watched) == Faulted(f)
  {
    var n := Relayed(items, watched);
    assert StopsAt(items, watched, n);
    forall m: nat | StopsAt(items, watched, m) ensures m == n {
      StopsOnce(items, watched, m);
    }
  }

  // ---------- the generator ----------

  class Relay {
    const netuid: int
    const minerUid: int
    const hotkey: string

    constructor (netuid: int, minerUid: int, hotkey: string) {
      this.netuid, this.minerUid, this.hotkey := netuid, minerUid, hotkey;
    }

    /** `sampled` is the draw that keeps the completeness verdict of a successful response. */
    method RecordScore(scorer: MinerScorer?, elapsedMs: nat, success: bool, complete: Option<bool>, sampled: bool, now: real)
      requires scorer != null ==> WellFiled(scorer.states)
      modifies scorer
      ensures scorer != null ==> WellFiled(scorer.states)
      ensures scorer != null ==>
        (var verdict := if success && !sampled then None else complete;
         var obs := Observation(minerUid, hotkey, netuid, success, elapsedMs as real, verdict, now);
         scorer.states == Recorded(old(scorer.states), scorer.alpha, scorer.timeouts, obs))
    {
      if scorer == null {
        return;
      }
      var verdict := complete;
      if success && complete.Some? && !sampled {
        verdict := None;
      }
      scorer.RecordObservation(Observation(minerUid, hotkey, netuid, success, elapsedMs as real, verdict, now));
    }

    /** Relays the reply.  Each fault is told by its own error, the chunks are shown in order, and the scorer,
        when there is one, gets one observation: a success if the regular stop was sent, a failure if an error
        was, and none if the client left. */
    method StreamGenerator(reply: Reply, watched: bool, scorer: MinerScorer?, endMs: nat, sampled: bool, now: real)
      returns (out: seq<Emission>)
      requires scorer != null ==> WellFiled(scorer.states)
      modifies scorer
      ensures out == Emitted(reply, watched)
      ensures Error(MinerTimedOut) in out <==> reply == Unanswered(TimedOut)
      ensures Error(EmptyResponse) in out <==> reply == NoResponses
      ensures Error(TimedOutMidStream) in out <==> BreaksOff(reply, watched, TimedOut)
      ensures Error(CommunicationError) in out <==> reply == Unanswered(Broke) || BreaksOff(reply, watched, Broke)
      ensures reply.Streaming? ==> ShowsChunks(reply.items, watched, out)
      ensures scorer != null ==>
        (var verdict := if StopAndDone in out && sampled then Some(true) else None;
         var obs := Observation(minerUid, hotkey, netuid, StopAndDone in out, endMs as real, verdict, now);
         scorer.states == if StopAndDone in out || Done in out
                          then Recorded(old(scorer.states), scorer.alpha, scorer.timeouts, obs) else old(scorer.states))
    {
      TranscriptTellsReply(reply, watched);
      out := RelayAndRate(reply, watched, scorer, endMs, sampled, now);
    }

    /** The generator's own steps, in terms of `Emitted` and `Rating`. */
    method RelayAndRate(reply: Reply, watched: bool, scorer: MinerScorer?, endMs: nat, sampled: bool, now: real)
      returns (out: seq<Emission>)
      requires scorer != null ==> WellFiled(scorer.states)
      modifies scorer
      ensures out == Emitted(reply, watched)
      ensures scorer != null ==>
        (match Rating(reply, watched)
         case None => scorer.states == old(scorer.states)
         case Some(success) =>
           var verdict := if success && sampled then Some(true) else None;
           var obs := Observation(minerUid, hotkey, netuid, success, endMs as real, verdict, now);
           scorer.states == Recorded(old(scorer.states), scorer.alpha, scorer.timeouts, obs))
    {
      out := [];
      match reply {
        case Unanswered(f) =>
          RecordScore(scorer, endMs, false, None, sampled, now);
          out := [Error(if f.TimedOut? then MinerTimedOut else CommunicationError), Done];
          return;
        case NoResponses =>
          RecordScore(scorer, endMs, false, None, sampled, now);
          out := [Error(EmptyResponse), Done];
          return;
        case Streaming(items, ending) =>
          var raised, clientDisconnected;
          out, raised, clientDisconnected := RelayItems(items, watched);
          ghost var body, outcome := out, OutcomeOf(items, ending, watched);
          assert clientDisconnected <==> outcome.Left?;
          if clientDisconnected {
            return;
          }
          raised := if raised.None? && ending.Raised? then Some(ending.fault) else raised;
          var hadError := raised.Some?;
          assert outcome == if hadError then Faulted(raised.value) else Completed;
          if hadError {
            out := out + [MidStream(raised.value)];
          }
          RecordScore(scorer, endMs, !hadError, if hadError then None else Some(true), sampled, now);
          out := out + if hadError then [Done] else [StopAndDone];
          assert out == body + Closing(outcome);
      }
    }

    /** The loop: what it yields, and how it was left. */
    method RelayItems(items: seq<Item>, watched: bool) returns (out: seq<Emission>, raised: Option<Fault>, gone: bool)
      ensures out == Body(items, watched)
      ensures var n := Relayed(items, watched);
        && (gone <==> n < |items| && Leaves(items[n], watched))
        && raised == if n < |items| then RaisedBy(items[n], watched) else None
    {
      out, raised, gone := [], None, false;
      var firstChunk := true;
      for i := 0 to |items|
        invariant raised.None? && !gone && UpTo(items, watched, i, out, firstChunk)
      {
        var sent;
        sent, raised, gone := RelayItem(items[i], watched, firstChunk);
        if gone || raised.Some? {
          BodyStops(items, watched, i, out, firstChunk);
          out := out + sent;
          return;
        }
        ItemShown(items, watched, i, out, firstChunk);
        out := out + sent;
        firstChunk := firstChunk && items[i].text == "";
      }
      BodyEnds(items, watched, out, firstChunk);
    }

    /** The body of the loop; `firstChunk` tells whether nothing has been shown yet. */
    method RelayItem(item: Item, watched: bool, firstChunk: bool)
      returns (sent: seq<Emission>, raised: Option<Fault>, gone: bool)
      ensures gone == Leaves(item, watched) && raised == RaisedBy(item, watched)
      ensures sent == Sent(item, watched, firstChunk)
    {
      sent, raised, gone := [], None, false;
      if watched {
        if item.hitch.Some? && item.hitch.value.PollRaises? {
          raised := Some(item.hitch.value.fault);
          return;
        }
        if item.gone {
          gone := true;
          return;
        }
      }
      if item.hitch.Some? && item.hitch.value.TextRaises? {
        raised := Some(item.hitch.value.fault);
        return;
      }
      if item.text == "" {
        return;
      }
      if firstChunk {
        sent := [Ttft(item.elapsedMs)];
      }
      if item.hitch.Some? && item.hitch.value.FormatRaises? {
        raised := Some(item.hitch.value.fault);
        return;
      }
      sent := sent + [Content(item.text, firstChunk)];
    }
  }

  lemma {:induction false} RelayedStopsAt(items: seq<Item>, watched: bool, i: nat)
    requires i <= |items| && forall k | 0 <= k < i :: Passes(items[k], watched)
    ensures (i < |items| ==> !Passes(items[i], watched)) ==> Relayed(items, watched) == i
  {
    if i > 0 {
      assert Passes(items[0], watched);
      RelayedStopsAt(items[1..], watched, i - 1);
    }
  }

  lemma ShownGrows(items: seq<Item>, i: nat)
    requires i < |items|
    ensures Shown(items[..i + 1]) == if items[i].text == "" then Shown(items[..i]) else Shown(items[..i]) + [items[i]]
  {
    assert items[..i + 1][..i] == items[..i];
  }

  lemma LinesGrow(shown: seq<Item>, item: Item)
    ensures var comment := if shown == [] then [Ttft(item.elapsedMs)] else [];
      Lines(shown + [item]) == Lines(shown) + (comment + [Content(item.text, shown == [])])
  {
    assert (shown + [item])[..|shown|] == shown;
  }

  /** The loop has relayed `i` items. */
  predicate UpTo(items: seq<Item>, watched: bool, i: nat, out: seq<Emission>, firstChunk: bool) {
    && i <= |items| && (forall k | 0 <= k < i :: Passes(items[k], watched))
    && out == Lines(Shown(items[..i])) && (firstChunk <==> Shown(items[..i]) == [])
  }

  lemma ItemAdds(shown: seq<Item>, item: Item, watched: bool)
    requires Passes(item, watched)
    ensures Lines(if item.text == "" then shown else shown + [item]) == Lines(shown) + Sent(item, watched, shown == [])
  {
    LinesGrow(shown, item);
  }

  /** An item that passes adds its lines. */
  lemma ItemShown(items: seq<Item>, watched: bool, i: nat, out: seq<Emission>, firstChunk: bool)
    requires UpTo(items, watched, i, out, firstChunk) && i < |items| && Passes(items[i], watched)
    ensures UpTo(items, watched, i + 1, out + Sent(items[i], watched, firstChunk), firstChunk && items[i].text == "")
  {
    ShownGrows(items, i);
    ItemAdds(Shown(items[..i]), items[i], watched);
  }

  /** An item that does not pass ends the loop. */
  lemma BodyStops(items: seq<Item>, watched: bool, i: nat, out: seq<Emission>, firstChunk: bool)
    requires UpTo(items, watched, i, out, firstChunk) && i < |items| && !Passes(items[i], watched)
    ensures Relayed(items, watched) == i && Body(items, watched) == out + Sent(items[i], watched, firstChunk)
  {
    RelayedStopsAt(items, watched, i);
    assert out + [] == out && (firstChunk ==> out == []);
  }

  lemma BodyEnds(items: seq<Item>, watched: bool, out: seq<Emission>, firstChunk: bool)
    requires UpTo(items, watched, |items|, out, firstChunk)
    ensures Relayed(items, watched) == |items| && Body(items, watched) == out
  {
    RelayedStopsAt(items, watched, |items|);
    assert items[..|items|] == items;
  }

  // ---------- the language clients may rely on ----------

  /** How far a client has read: nothing yet, the latency comment, content, an error, or the terminator. */
  datatype Spot = Start | Announced | Talking | Apologized | Over | Astray

  function Next(at: Spot, e: Emission): Spot {
    match e
    case Ttft(_) => if at.Start? then Announced else Astray
    case Content(text, role) => if text != "" && (if role then at.Announced? else at.Talking?) then Talking else Astray
    case Error(t) => if at.Start? || (at in {Announced, Talking} && MidStreamTrouble(t)) then Apologized else Astray
    case StopAndDone => if at in {Start, Talking} then Over else Astray
    case Done => if at.Apologized? then Over else Astray
  }

  predicate MidStreamTrouble(t: Trouble) {
    t.TimedOutMidStream? || t.CommunicationError?
  }

  function Reads(out: seq<Emission>): Spot {
    if out == [] then Start else Next(Reads(out[..|out| - 1]), out[|out| - 1])
  }

  lemma ReadsNext(out: seq<Emission>, e: Emission)
    ensures Reads(out + [e]) == Next(Reads(out), e)
  {
    assert (out + [e])[..|out|] == out;
  }

  lemma ReadsTwo(out: seq<Emission>, e: Emission, f: Emission)
    ensures Reads(out + [e, f]) == Next(Next(Reads(out), e), f)
  {
    var first := out + [e];
    assert out + [e, f] == first + [f];
    ReadsNext(first, f);
    ReadsNext(out, e);
  }

  predicate AllTalk(shown: seq<Item>) {
    shown == [] || (shown[|shown| - 1].text != "" && AllTalk(shown[..|shown| - 1]))
  }

  lemma AllTalkNext(shown: seq<Item>, item: Item)
    requires AllTalk(shown) && item.text != ""
    ensures AllTalk(shown + [item])
  {
    assert (shown + [item])[..|shown|] == shown;
  }

  lemma {:induction false} ShownTalk(items: seq<Item>)
    ensures AllTalk(Shown(items))
  {
    if items != [] {
      var rest, last := items[..|items| - 1], items[|items| - 1];
      ShownTalk(rest);
      if last.text != "" {
        AllTalkNext(Shown(rest), last);
      } else {
        assert Shown(items) == Shown(rest);
      }
    }
  }

  lemma FirstLinesRead(item: Item)
    requires item.text != ""
    ensures Reads(Lines([item])).Talking?
  {
    var comment, line := Ttft(item.elapsedMs), Content(item.text, true);
    assert Lines([item]) == [comment, line] == [] + [comment, line];
    ReadsTwo([], comment, line);
  }

  lemma LinesReadNext(before: seq<Item>, last: Item)
    requires before != [] && last.text != "" && Reads(Lines(before)).Talking?
    ensures Reads(Lines(before + [last])).Talking?
  {
    var line := Content(last.text, false);
    LinesGrow(before, last);
    assert Lines(before + [last]) == Lines(before) + [line];
    ReadsNext(Lines(before), line);
  }

  lemma {:induction false} LinesRead(shown: seq<Item>)
    requires AllTalk(shown)
    ensures Reads(Lines(shown)) == if shown == [] then Start else Talking
  {
    if shown != [] {
      var before, last := shown[..|shown| - 1], shown[|shown| - 1];
      LinesRead(before);
      assert shown == before + [last];
      if before == [] {
        FirstLinesRead(last);
      } else {
        LinesReadNext(before, last);
      }
    }
  }

  lemma BodyReads(items: seq<Item>, watched: bool)
    ensures Reads(Body(items, watched)) in {Start, Announced, Talking}
    ensures var n := Relayed(items, watched);
      n == |items| || Leaves(items[n], watched) ==> Reads(Body(items, watched)) != Announced
  {
    var n := Relayed(items, watched);
    ShownTalk(items[..n]);
    LinesRead(Shown(items[..n]));
    if n < |items| {
      ReadsNext([], Ttft(items[n].elapsedMs));
    }
  }

  lemma ClosingReads(body: seq<Emission>, o: Outcome)
    requires Reads(body) in {Start, Announced, Talking} && (!o.Faulted? ==> !Reads(body).Announced?)
    ensures if o.Left? then Reads(body + Closing(o)) in {Start, Talking} else Reads(body + Closing(o)).Over?
  {
    match o {
      case Completed => ReadsNext(body, StopAndDone);
      case Left => assert body + [] == body;
      case Faulted(f) => ReadsTwo(body, MidStream(f), Done);
    }
  }

  /** Every transcript belongs to the language: cut short only for a client that left. */
  lemma TranscriptIsLawful(reply: Reply, watched: bool)
    ensures var at := Reads(Emitted(reply, watched));
      if ClientLeft(reply, watched) then at in {Start, Talking} else at.Over?
  {
    match reply {
      case Streaming(items, ending) =>
        BodyReads(items, watched);
        ClosingReads(Body(items, watched), OutcomeOf(items, ending, watched));
      case NoResponses =>
        ReadsTwo([], Error(EmptyResponse), Done);
      case Unanswered(f) =>
        ReadsTwo([], Error(MinerTimedOut), Done);
        ReadsTwo([], Error(CommunicationError), Done);
    }
  }

  predicate Undisturbed(items: seq<Item>) {
    forall i | 0 <= i < |items| :: items[i].text != "" && !items[i].gone && items[i].hitch.None?
  }

  lemma {:induction false} AllShown(items: seq<Item>)
    requires Undisturbed(items)
    ensures Shown(items) == items
  {
    if items != [] {
      AllShown(items[..|items| - 1]);
    }
  }

  lemma WholeRelayed(items: seq<Item>)
    requires Undisturbed(items)
    ensures Relayed(items, true) == |items| && Body(items, true) == Lines(items)
  {
    RelayedStopsAt(items, true, |items|);
    AllShown(items);
    assert items[..|items|] == items;
  }

  /** A readable beginning is what some undisturbed items make. */
  lemma {:induction false} Rebuild(out: seq<Emission>) returns (items: seq<Item>)
    requires Reads(out).Start? || Reads(out).Talking?
    ensures Undisturbed(items) && Lines(items) == out
  {
    if out == [] {
      items := [];
    } else {
      var before, e := out[..|out| - 1], out[|out| - 1];
      assert out == before + [e];
      if Reads(before).Announced? {
        var ms := Comment(before);
        items := [Item(ms, false, e.text, None)];
      } else {
        var shown := Rebuild(before);
        var item := Item(0, false, e.text, None);
        items := shown + [item];
        LinesGrow(shown, item);
      }
    }
  }

  /** Only the latency comment, sent first, is read as an announcement. */
  lemma Comment(out: seq<Emission>) returns (ms: nat)
    requires Reads(out).Announced?
    ensures out == [Ttft(ms)]
  {
    var n := |out| - 1;
    ms := out[n].ms;
    assert Reads(out[..n]).Start?;
    assert out[..n] == [];
  }

  lemma FaultyReply(before: seq<Emission>, trouble: Trouble) returns (reply: Reply)
    requires Reads(before) in {Start, Announced, Talking} && (!Reads(before).Start? ==> MidStreamTrouble(trouble))
    ensures Emitted(reply, true) == before + [Error(trouble), Done] && !ClientLeft(reply, true)
  {
    var fault := if trouble.CommunicationError? then Broke else TimedOut;
    if MidStreamTrouble(trouble) {
      assert MidStream(fault) == Error(trouble);
      if Reads(before).Announced? {
        var ms := Comment(before);
        var item := Item(ms, false, "x", Some(FormatRaises(fault)));
        assert Body([item], true) == before;
        reply := Streaming([item], Exhausted);
      } else {
        var items := Rebuild(before);
        WholeRelayed(items);
        reply := Streaming(items, Raised(fault));
      }
    } else {
      assert before == [];
      reply := if trouble.EmptyResponse? then NoResponses else Unanswered(TimedOut);
    }
  }

  lemma RegularReply(before: seq<Emission>) returns (reply: Reply)
    requires Reads(before).Start? || Reads(before).Talking?
    ensures Emitted(reply, true) == before + [StopAndDone] && !ClientLeft(reply, true)
  {
    var items := Rebuild(before);
    WholeRelayed(items);
    reply := Streaming(items, Exhausted);
  }

  /** An apology comes directly before the bare terminator. */
  lemma Apology(out: seq<Emission>) returns (before: seq<Emission>, trouble: Trouble)
    requires Reads(out).Apologized?
    ensures out == before + [Error(trouble)]
    ensures Reads(before) in {Start, Announced, Talking} && (!Reads(before).Start? ==> MidStreamTrouble(trouble))
  {
    before, trouble := out[..|out| - 1], out[|out| - 1].trouble;
  }

  /** And every sentence of the language is a transcript. */
  lemma LawfulIsTranscript(out: seq<Emission>) returns (reply: Reply)
    requires Reads(out).Over?
    ensures Emitted(reply, true) == out && !ClientLeft(reply, true)
  {
    var rest, last := out[..|out| - 1], out[|out| - 1];
    assert out == rest + [last];
    if last.StopAndDone? {
      reply := RegularReply(rest);
    } else {
      var before, trouble := Apology(rest);
      assert out == before + [Error(trouble), Done];
      reply := FaultyReply(before, trouble);
    }
  }

  lemma CutIsTranscript(out: seq<Emission>) returns (reply: Reply)
    requires Reads(out).Start? || Reads(out).Talking?
    ensures Emitted(reply, true) == out && ClientLeft(reply, true)
  {
    var items := Rebuild(out);
    var all := items + [Item(0, true, "", None)];
    RelayedStopsAt(all, true, |items|);
    AllShown(items);
    assert all[..|items|] == items;
    reply := Streaming(all, Exhausted);
  }

  ghost predicate Sendable(out: seq<Emission>, left: bool) {
    exists reply, watched :: ClientLeft(reply, watched) == left && Emitted(reply, watched) == out
  }

  /** The transcripts are exactly the sentences of the automaton: complete ones for clients that stay, and
      for clients that left those broken off before anything or after some content. */
  lemma TranscriptsAreTheLanguage(out: seq<Emission>)
    ensures Sendable(out, false) <==> Reads(out).Over?
    ensures Sendable(out, true) <==> Reads(out).Start? || Reads(out).Talking?
  {
    if reply, watched :| ClientLeft(reply, watched) == false && Emitted(reply, watched) == out {
      TranscriptIsLawful(reply, watched);
    }
    if reply, watched :| ClientLeft(reply, watched) == true && Emitted(reply, watched) == out {
      TranscriptIsLawful(reply, watched);
    }
    if Reads(out).Over? {
      var reply := LawfulIsTranscript(out);
      assert Sendable(out, false);
    } else if Reads(out).Start? || Reads(out).Talking? {
      var reply := CutIsTranscript(out);
      assert Sendable(out, true);
    }
  }

  predicate Terminates(e: Emission) {
    e.StopAndDone? || e.Done?
  }

  /** The terminator is sent exactly once and last to a client that stays, and never to one that left. */
  lemma {:induction false} OneTerminator(out: seq<Emission>, i: nat)
    requires !Reads(out).Astray? && i < |out|
    ensures Terminates(out[i]) <==> Reads(out).Over? && i == |out| - 1
  {
    var n := |out| - 1;
    if i < n {
      assert out[..n][i] == out[i];
      OneTerminator(out[..n], i);
    }
  }

  /** The miner is credited with a success exactly when the client was sent the regular stop, debited when it
      was sent an error, and not rated when the client left. */
  lemma RatingMatchesTranscript(reply: Reply, watched: bool)
    ensures var out := Emitted(reply, watched);
      && (Rating(reply, watched) == Some(true) <==> StopAndDone in out)
      && (Rating(reply, watched) == Some(false) <==> Done in out)
      && (Done in out <==> exists t :: Error(t) in out)
  {
    var out := Emitted(reply, watched);
    if reply.Streaming? {
      var body, o := Body(reply.items, watched), OutcomeOf(reply.items, reply.ending, watched);
      BodyHasNoTrouble(reply.items, watched);
      assert forall e :: e in out <==> e in body || e in Closing(o);
      match o {
        case Faulted(f) => assert MidStream(f) in out;
        case _ =>
      }
    } else {
      assert out[0].Error? && out[0] in out;
    }
  }

  /** Each fault has its own error, and the chunks are those of the reply. */
  lemma TranscriptTellsReply(reply: Reply, watched: bool)
    ensures var out := Emitted(reply, watched);
      && (Error(MinerTimedOut) in out <==> reply == Unanswered(TimedOut))
      && (Error(EmptyResponse) in out <==> reply == NoResponses)
      && (Error(TimedOutMidStream) in out <==> BreaksOff(reply, watched, TimedOut))
      && (Error(CommunicationError) in out <==> reply == Unanswered(Broke) || BreaksOff(reply, watched, Broke))
      && (reply.Streaming? ==> ShowsChunks(reply.items, watched, out))
      && (Rating(reply, watched) == Some(true) <==> StopAndDone in out)
      && (Rating(reply, watched) == Some(false) <==> Done in out)
  {
    RatingMatchesTranscript(reply, watched);
    match reply {
      case Streaming(items, ending) =>
        StreamTroubles(items, ending, watched);
        StreamShowsChunks(items, ending, watched);
      case _ =>
    }
  }

  lemma ClosingTroubles(body: seq<Emission>, o: Outcome, t: Trouble)
    requires forall e | e in body :: e.Ttft? || e.Content?
    ensures Error(t) in body + Closing(o) <==> o.Faulted? && Error(t) == MidStream(o.fault)
  {
    assert Error(t) in body + Closing(o) <==> Error(t) in Closing(o);
  }

  lemma StreamTroubles(items: seq<Item>, ending: Ending, watched: bool)
    ensures var reply := Streaming(items, ending); var out := Emitted(reply, watched);
      && Error(MinerTimedOut) !in out && Error(EmptyResponse) !in out
      && (Error(TimedOutMidStream) in out <==> BreaksOff(reply, watched, TimedOut))
      && (Error(CommunicationError) in out <==> BreaksOff(reply, watched, Broke))
  {
    var body, o := Body(items, watched), OutcomeOf(items, ending, watched);
    BodyHasNoTrouble(items, watched);
    ClosingTroubles(body, o, MinerTimedOut);
    ClosingTroubles(body, o, EmptyResponse);
    ClosingTroubles(body, o, TimedOutMidStream);
    ClosingTroubles(body, o, CommunicationError);
    BreaksOffIsFaulted(items, ending, watched, TimedOut);
    BreaksOffIsFaulted(items, ending, watched, Broke);
  }

  lemma StreamShowsChunks(items: seq<Item>, ending: Ending, watched: bool)
    ensures ShowsChunks(items, watched, Emitted(Streaming(items, ending), watched))
  {
    BodyShowsChunks(items, watched);
    ClosingAddsNoChunks(items, watched, Relayed(items, watched), Body(items, watched),
                        Closing(OutcomeOf(items, ending, watched)));
  }
}
