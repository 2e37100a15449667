/** What the MQTT write queue does with packets and with the transport's answers, told by those alone. */
module OutboxRules {
  import opened Base
  import opened MqttOutbound

  /** How much of `unsent` bytes the first `j` answers take, the first write offering only what it must repeat. */
  function Total(unsent: nat, pending: nat, answers: seq<Answer>, j: nat): (n: nat)
    requires j <= |answers| && pending <= unsent
    ensures n <= unsent
  {
    if j == 0 then 0
    else
      var before := Total(unsent, pending, answers, j - 1);
      var offered := if j == 1 && pending > 0 then pending else unsent - before;
      before + if !answers[j - 1].Took? then 0
               else if j == 1 && pending > 0 && answers[0].n > pending then pending
               else if answers[j - 1].n > offered then offered else answers[j - 1].n
  }

  predicate AllTook(answers: seq<Answer>, j: nat)
    requires j <= |answers|
  {
    forall m :: 0 <= m < j ==> answers[m].Took?
  }

  /** The first `j` answers of a flush all took bytes, and were not yet enough. */
  predicate Reaches(unsent: nat, pending: nat, answers: seq<Answer>, j: nat)
    requires j <= |answers| && pending <= unsent
  {
    AllTook(answers, j) && Total(unsent, pending, answers, j) < unsent
  }

  lemma {:induction false} TotalGrows(unsent: nat, pending: nat, answers: seq<Answer>, i: nat, j: nat)
    requires i <= j <= |answers| && pending <= unsent
    ensures Total(unsent, pending, answers, i) <= Total(unsent, pending, answers, j)
    decreases j
  {
    if i < j {
      TotalGrows(unsent, pending, answers, i, j - 1);
    }
  }

  lemma TotalTurn(unsent: nat, pending: nat, answers: seq<Answer>, j: nat)
    requires 0 < j <= |answers| && pending <= unsent && answers[j - 1].Took?
    ensures var before := Total(unsent, pending, answers, j - 1);
            Total(unsent, pending, answers, j)
            == before + Min(answers[j - 1].n, Chunk(unsent - before, if j == 1 then pending else 0))
  {
  }

  /** Once `j` answers have been used up, the flush is that of what is left. */
  lemma {:induction false} PushedOn(unsent: nat, pending: nat, answers: seq<Answer>, j: nat)
    requires j <= |answers| && pending <= unsent && AllTook(answers, j)
    requires j > 0 ==> Reaches(unsent, pending, answers, j - 1)
    ensures var total := Total(unsent, pending, answers, j);
            var rest := Pushed(unsent - total, if j == 0 then pending else 0, answers, j);
            Pushed(unsent, pending, answers, 0) == rest.(count := total + rest.count)
    decreases j
  {
    hide Pushed;
    hide Chunk;
    hide Total;
    NoneTaken(unsent, pending, answers);
    if j > 0 {
      var before := Total(unsent, pending, answers, j - 1);
      if j > 1 {
        TotalGrows(unsent, pending, answers, j - 2, j - 1);
      }
      PushedOn(unsent, pending, answers, j - 1);
      TotalTurn(unsent, pending, answers, j);
      PushedTurn(unsent - before, if j == 1 then pending else 0, answers, j - 1);
    }
  }

  lemma NoneTaken(unsent: nat, pending: nat, answers: seq<Answer>)
    requires pending <= unsent
    ensures Total(unsent, pending, answers, 0) == 0
  {
  }

  /** What a flush has come to when it reaches answer `j`, with bytes left, and that one takes none. */
  lemma PushStops(unsent: nat, pending: nat, answers: seq<Answer>, j: nat)
    requires j <= |answers| && pending <= unsent && Reaches(unsent, pending, answers, j)
    requires j == |answers| || !answers[j].Took?
    ensures var p := Pushed(unsent, pending, answers, 0);
            && p.count == Total(unsent, pending, answers, j)
            && (p.broke <==> j < |answers| && answers[j].Broke?)
            && (!p.broke ==> p.pending == if j == 0 && pending > 0 then pending else unsent - p.count)
  {
    if j > 0 {
      TotalGrows(unsent, pending, answers, j - 1, j);
    }
    PushedOn(unsent, pending, answers, j);
    PushedTurn(unsent - Total(unsent, pending, answers, j), if j == 0 then pending else 0, answers, j);
    hide Pushed;
    hide Total;
  }

  /** And when the answers so far were enough: everything is out. */
  lemma PushEnds(unsent: nat, pending: nat, answers: seq<Answer>, j: nat)
    requires 0 < j <= |answers| && pending <= unsent && Reaches(unsent, pending, answers, j - 1) && answers[j - 1].Took?
    requires Total(unsent, pending, answers, j) == unsent
    ensures Pushed(unsent, pending, answers, 0) == Push(unsent, 0, false)
  {
    PushedOn(unsent, pending, answers, j);
    PushedNothing(answers, j);
    hide Pushed;
    hide Total;
  }

  /** A transport that takes all it is offered has everything after at most two writes. */
  lemma AllOut(unsent: nat, pending: nat, answers: seq<Answer>)
    requires pending <= unsent && |answers| >= 2 && answers[0].Took? && answers[1].Took?
    requires answers[0].n >= unsent && answers[1].n >= unsent
    ensures Pushed(unsent, pending, answers, 0) == Push(unsent, 0, false)
  {
    if unsent > 0 {
      assert Total(unsent, pending, answers, 0) == 0;
      if pending == 0 || pending == unsent {
        assert Total(unsent, pending, answers, 1) == unsent;
        PushEnds(unsent, pending, answers, 1);
      } else {
        assert Total(unsent, pending, answers, 1) == pending;
        assert Total(unsent, pending, answers, 2) == unsent;
        PushEnds(unsent, pending, answers, 2);
      }
    }
  }

  /**
   Along any run, a packet is taken exactly if it fits behind what is held: with that moved to the front of
   the buffer of 4096 bytes, unless a blocked write pins it where it is.
   */
  lemma TakenExactly(events: seq<Event>, i: nat)
    requires i < |events| && events[i].Send? && !Ran(events, i).lost
    ensures var b, n := Ran(events, i).box, |events[i].data|;
            var next := Ran(events, i + 1);
            && |next.accepted| == i + 1
            && (next.accepted[i] <==> (if b.pending > 0 then b.len + n <= 4096 else b.len - b.sent + n <= 4096))
  {
    hide Pushed;
    hide Flushed;
    hide Breaks;
  }

  /** A run is lost exactly in an event whose flush breaks, and a packet that is refused breaks nothing. */
  lemma LostExactly(events: seq<Event>, i: nat)
    requires i < |events| && !Ran(events, i).lost
    ensures var b, next := Ran(events, i).box, Ran(events, i + 1);
            match events[i]
            case Writable(answers) => next.lost <==> Pushed(b.len - b.sent, b.pending, answers, 0).broke
            case Send(data, answers) =>
              next.lost <==>
                next.accepted[i] && Pushed(b.len - b.sent + |data|, b.pending, answers, 0).broke
  {
    hide Pushed;
    hide Flushed;
  }
}
