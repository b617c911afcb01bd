/** One stream connection (streamOnce in stream.go): the NDJSON line loop. */
module StreamLoop {
  import opened Prelude
  import Text
  import opened Delivery
  import opened PollClient

  /** A line the loop emits: not blank, and it decodes. */
  predicate Carries(decode: string -> Option<Event>, line: string) {
    Text.TrimSpace(line) != "" && decode(line).Some?
  }

  /** The events of a connection, in line order. */
  function EventsOf(decode: string -> Option<Event>, lines: seq<string>): seq<Event> {
    if lines == [] then []
    else
      var n := |lines| - 1;
      EventsOf(decode, lines[..n]) + (if Carries(decode, lines[n]) then [decode(lines[n]).value] else [])
  }

  lemma EventsNext(decode: string -> Option<Event>, lines: seq<string>, n: nat)
    requires n < |lines|
    ensures EventsOf(decode, lines[..n + 1])
            == EventsOf(decode, lines[..n]) + (if Carries(decode, lines[n]) then [decode(lines[n]).value] else [])
  {
    assert lines[..n + 1][..n] == lines[..n];
  }

  /** One line: skipped if blank or malformed, emitted otherwise. An emit error is
      logged and changes nothing. */
  method HandleLine(decode: string -> Option<Event>, line: string, o: Outcome, sink: Sink) returns (emitted: bool)
    modifies sink
    ensures emitted == Carries(decode, line)
    ensures emitted ==> sink.received == Receive(old(sink.received), decode(line).value, o)
                        && sink.acked == Acknowledge(old(sink.acked), decode(line).value, o)
    ensures !emitted ==> sink.received == old(sink.received) && sink.acked == old(sink.acked)
  {
    if Text.TrimSpace(line) == "" {
      return false;
    }
    var decoded := decode(line);
    if decoded.None? {
      return false;
    }
    var ok := sink.Send(decoded.value, o);
    emitted := true;
  }

  /** The sink's answers change nothing of what is emitted; gotEvent is set also when
      every emit failed. */
  method StreamOnce(decode: string -> Option<Event>, lines: seq<string>, outcomes: seq<Outcome>, sink: Sink)
    returns (gotEvent: bool, calls: seq<Event>)
    modifies sink
    ensures calls == EventsOf(decode, lines)
    ensures gotEvent <==> calls != []
    ensures sink.received == Delivered(old(sink.received), calls, outcomes)
    ensures sink.acked == Confirmed(old(sink.acked), calls, outcomes)
  {
    gotEvent, calls := false, [];
    for n := 0 to |lines|
      invariant calls == EventsOf(decode, lines[..n])
      invariant gotEvent <==> calls != []
      invariant sink.received == Delivered(old(sink.received), calls, outcomes)
      invariant sink.acked == Confirmed(old(sink.acked), calls, outcomes)
    {
      EventsNext(decode, lines, n);
      var emitted := HandleLine(decode, lines[n], OutcomeAt(outcomes, |calls|), sink);
      if emitted {
        var ev := decode(lines[n]).value;
        assert (calls + [ev])[..|calls|] == calls;
        calls := calls + [ev];
        gotEvent := true;
      }
    }
    assert lines[..|lines|] == lines;
  }

  /** The numbers of the lines that carry an event. */
  function Carriers(decode: string -> Option<Event>, lines: seq<string>): (at: seq<nat>)
    ensures |at| == |EventsOf(decode, lines)|
  {
    if lines == [] then []
    else
      var n := |lines| - 1;
      Carriers(decode, lines[..n]) + (if Carries(decode, lines[n]) then [n] else [])
  }

  /** A line is emitted if and only if it carries an event. */
  lemma {:induction false} EmittedIffCarries(decode: string -> Option<Event>, lines: seq<string>, i: nat)
    ensures i in Carriers(decode, lines) <==>
              i < |lines| && Text.TrimSpace(lines[i]) != "" && decode(lines[i]).Some?
  {
    if lines != [] {
      var n := |lines| - 1;
      EmittedIffCarries(decode, lines[..n], i);
      if Carries(decode, lines[n]) {
        assert i in Carriers(decode, lines[..n]) + [n] <==> i in Carriers(decode, lines[..n]) || i == n;
      }
    }
  }

  /** The k-th emitted event is that of the k-th such line. */
  lemma {:induction false} EmittedInOrder(decode: string -> Option<Event>, lines: seq<string>, k: nat)
    requires k < |Carriers(decode, lines)|
    ensures var i := Carriers(decode, lines)[k];
            && i < |lines| && Carries(decode, lines[i])
            && EventsOf(decode, lines)[k] == decode(lines[i]).value
            && (k > 0 ==> Carriers(decode, lines)[k - 1] < i)
  {
    var n := |lines| - 1;
    if k < |Carriers(decode, lines[..n])| {
      EmittedInOrder(decode, lines[..n], k);
    } else if k > 0 {
      EmittedInOrder(decode, lines[..n], k - 1);
    }
  }

  /** What gotEvent tells run: there was a line that carries an event. */
  lemma {:induction false} GotEventMeaning(decode: string -> Option<Event>, lines: seq<string>)
    ensures EventsOf(decode, lines) != [] <==> exists line :: line in lines && Carries(decode, line)
  {
    if lines != [] {
      var n := |lines| - 1;
      GotEventMeaning(decode, lines[..n]);
      assert lines == lines[..n] + [lines[n]];
    }
  }

  /** The two transports on the same events: the stream emits all of them, the poll
      loop exactly those up to and including the first that is not acknowledged. So
      they agree if and only if nothing before the last event fails. */
  lemma PollStopsStreamGoesOn(decode: string -> Option<Event>, lines: seq<string>, outcomes: seq<Outcome>)
    ensures var all := EventsOf(decode, lines);
            var polled := Emitted(all, outcomes);
            && polled <= all
            && (forall i | 0 <= i < |polled| - 1 :: OutcomeAt(outcomes, i).Acked?)
            && (|polled| < |all| ==> polled != [] && !OutcomeAt(outcomes, |polled| - 1).Acked?)
            && (polled == all <==> forall i | 0 <= i < |all| - 1 :: OutcomeAt(outcomes, i).Acked?)
  {
    var all := EventsOf(decode, lines);
    var k := FirstFailure(outcomes, |all|);
    if k < |all| - 1 {
      assert !OutcomeAt(outcomes, k).Acked?;
    }
  }
}
