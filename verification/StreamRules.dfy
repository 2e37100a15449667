/** What a flush of the stream's queue comes to, told by the answers alone, and that it comes to everything. */
module StreamRules {
  import opened Base
  import opened StreamRing

  /** How many of the answers from `i` up to `j` took bytes. */
  function Takes(answers: seq<Answer>, i: nat, j: nat): nat
    requires i <= j <= |answers|
  {
    if i == j then 0 else Takes(answers, i, j - 1) + if answers[j - 1].Took? then 1 else 0
  }

  /** How much of a frame is left, `sent` bytes of the first one being out. */
  function Left(frames: seq<Frame>, k: nat, sent: nat, taken: nat): int
    requires k + taken < |frames|
  {
    |frames[k + taken].data| - (if taken == 0 then sent else 0)
  }

  /** An answer that lets a flush go on: an interruption, or all that is left of the frame it is about. */
  predicate GoesOn(frames: seq<Frame>, k: nat, sent: nat, taken: nat, answer: Answer) {
    || answer.Interrupted?
    || (answer.Took? && k + taken < |frames| && answer.n >= Left(frames, k, sent, taken))
  }

  /** The flush reaches the `j`th answer, with frames left to write. */
  predicate Reaches(frames: seq<Frame>, k: nat, sent: nat, answers: seq<Answer>, i: nat, j: nat)
    requires i <= j <= |answers|
  {
    && k + Takes(answers, i, j) < |frames|
    && forall m :: i <= m < j ==> GoesOn(frames, k, sent, Takes(answers, i, m), answers[m])
  }

  lemma {:induction false} TakesFrom(answers: seq<Answer>, i: nat, j: nat)
    requires i < j <= |answers|
    ensures Takes(answers, i, j) == (if answers[i].Took? then 1 else 0) + Takes(answers, i + 1, j)
    decreases j
  {
    if j > i + 1 {
      TakesFrom(answers, i, j - 1);
    }
  }

  /** Past an answer that lets it go on, the flush is that of what is left. */
  lemma ReachesOn(frames: seq<Frame>, k: nat, sent: nat, answers: seq<Answer>, i: nat, j: nat)
    requires i < j <= |answers| && k < |frames| && GoesOn(frames, k, sent, 0, answers[i])
    ensures var took := answers[i].Took?;
            Reaches(frames, k, sent, answers, i, j) <==>
              Reaches(frames, if took then k + 1 else k, if took then 0 else sent, answers, i + 1, j)
  {
    TakesFrom(answers, i, j);
    NoneYet(answers, i);
    forall m | i < m < j
      ensures var took := answers[i].Took?;
              GoesOn(frames, k, sent, Takes(answers, i, m), answers[m])
              <==> GoesOn(frames, if took then k + 1 else k, if took then 0 else sent,
                          Takes(answers, i + 1, m), answers[m])
    {
      GoesSame(frames, k, sent, answers, i, m);
    }
    hide Takes;
  }

  /** A flush fails exactly if it reaches an answer that breaks the connection with a frame still to write. */
  lemma {:induction false} FailsExactly(frames: seq<Frame>, k: nat, sent: nat, answers: seq<Answer>, i: nat)
    requires k <= |frames| && i <= |answers|
    ensures Flowed(frames, k, sent, answers, i).broke <==>
      exists j :: i <= j < |answers| && answers[j].Broke? && Reaches(frames, k, sent, answers, i, j)
    decreases |answers| - i
  {
    if k < |frames| && i < |answers| {
      assert Takes(answers, i, i) == 0;
      if answers[i].Broke? {
        assert Reaches(frames, k, sent, answers, i, i);
      } else if GoesOn(frames, k, sent, 0, answers[i]) {
        var took := answers[i].Took?;
        var k', sent' := if took then k + 1 else k, if took then 0 else sent;
        var next := i + 1;
        FailsExactly(frames, k', sent', answers, next);
        if j :| next <= j < |answers| && answers[j].Broke? && Reaches(frames, k', sent', answers, next, j) {
          ReachesOn(frames, k, sent, answers, i, j);
        }
        if j :| i <= j < |answers| && answers[j].Broke? && Reaches(frames, k, sent, answers, i, j) {
          ReachesOn(frames, k, sent, answers, i, j);
        }
      } else {
        forall j | i < j < |answers| ensures !Reaches(frames, k, sent, answers, i, j) {
          assert !GoesOn(frames, k, sent, Takes(answers, i, i), answers[i]);
        }
      }
    }
  }

  /** All the answers up to `j` let the flush go on. */
  predicate Goes(frames: seq<Frame>, k: nat, sent: nat, answers: seq<Answer>, i: nat, j: nat)
    requires i <= j <= |answers|
  {
    forall m :: i <= m < j ==> GoesOn(frames, k, sent, Takes(answers, i, m), answers[m])
  }

  /** What the answer `j` makes of frame `at`, of which `out` bytes are out. */
  predicate Ends(frames: seq<Frame>, at: nat, out: nat, answers: seq<Answer>, j: nat, f: Flow)
    requires j <= |answers|
  {
    && f.done == at <= |frames|
    && if at == |frames| then f.sent == 0 && !f.broke
       else if j == |answers| || answers[j].Again? then f.sent == out && !f.broke
       else if answers[j].Broke? then f.sent == out && f.broke
       else answers[j].Took? && f.sent == out + answers[j].n < |frames[at].data| && !f.broke
  }

  /** Where a flush stops, and what is out then. */
  predicate StopsAt(frames: seq<Frame>, k: nat, sent: nat, answers: seq<Answer>, i: nat, j: nat, f: Flow)
    requires i <= j <= |answers|
  {
    var taken := Takes(answers, i, j);
    Goes(frames, k, sent, answers, i, j) && Ends(frames, k + taken, if taken == 0 then sent else 0, answers, j, f)
  }

  lemma StopsHere(frames: seq<Frame>, k: nat, sent: nat, answers: seq<Answer>, i: nat)
    requires k <= |frames| && i <= |answers|
    requires k == |frames| || i == |answers| || !GoesOn(frames, k, sent, 0, answers[i])
    ensures StopsAt(frames, k, sent, answers, i, i, Flowed(frames, k, sent, answers, i))
  {
    assert Takes(answers, i, i) == 0;
  }

  lemma FlowGoesOn(frames: seq<Frame>, k: nat, sent: nat, answers: seq<Answer>, i: nat)
    requires k < |frames| && i < |answers| && GoesOn(frames, k, sent, 0, answers[i])
    ensures var took := answers[i].Took?;
            Flowed(frames, k, sent, answers, i)
            == Flowed(frames, if took then k + 1 else k, if took then 0 else sent, answers, i + 1)
  {
  }

  lemma StopsOn(frames: seq<Frame>, k: nat, sent: nat, answers: seq<Answer>, i: nat, j: nat, f: Flow)
    requires i < j <= |answers| && k < |frames| && GoesOn(frames, k, sent, 0, answers[i])
    requires var took := answers[i].Took?;
             StopsAt(frames, if took then k + 1 else k, if took then 0 else sent, answers, i + 1, j, f)
    ensures StopsAt(frames, k, sent, answers, i, j, f)
  {
    hide Flowed;
    hide Ends;
    GoesFurther(frames, k, sent, answers, i, j);
    TakesFrom(answers, i, j);
    hide Takes;
    hide Goes;
  }

  lemma GoesFurther(frames: seq<Frame>, k: nat, sent: nat, answers: seq<Answer>, i: nat, j: nat)
    requires i < j <= |answers| && k < |frames| && GoesOn(frames, k, sent, 0, answers[i])
    requires var took := answers[i].Took?;
             Goes(frames, if took then k + 1 else k, if took then 0 else sent, answers, i + 1, j)
    ensures Goes(frames, k, sent, answers, i, j)
  {
    hide GoesOn;
    hide Takes;
    forall m | i <= m < j ensures GoesOn(frames, k, sent, Takes(answers, i, m), answers[m]) {
      if m > i {
        GoesSame(frames, k, sent, answers, i, m);
      } else {
        NoneYet(answers, i);
      }
    }
  }

  lemma NoneYet(answers: seq<Answer>, i: nat)
    requires i <= |answers|
    ensures Takes(answers, i, i) == 0
  {
  }

  lemma GoesSame(frames: seq<Frame>, k: nat, sent: nat, answers: seq<Answer>, i: nat, m: nat)
    requires i < m < |answers| && k < |frames| && GoesOn(frames, k, sent, 0, answers[i])
    ensures var took := answers[i].Took?;
            GoesOn(frames, k, sent, Takes(answers, i, m), answers[m])
            <==> GoesOn(frames, if took then k + 1 else k, if took then 0 else sent,
                        Takes(answers, i + 1, m), answers[m])
  {
    TakesFrom(answers, i, m);
    hide Takes;
  }

  /** Every flush stops somewhere in that way. */
  lemma {:induction false} FlowStops(frames: seq<Frame>, k: nat, sent: nat, answers: seq<Answer>, i: nat)
    returns (j: nat)
    requires k <= |frames| && i <= |answers|
    ensures i <= j <= |answers| && StopsAt(frames, k, sent, answers, i, j, Flowed(frames, k, sent, answers, i))
    decreases |answers| - i
  {
    hide Flowed;
    hide StopsAt;
    hide GoesOn;
    if k == |frames| || i == |answers| || !GoesOn(frames, k, sent, 0, answers[i]) {
      StopsHere(frames, k, sent, answers, i);
      return i;
    }
    var took := answers[i].Took?;
    FlowGoesOn(frames, k, sent, answers, i);
    j := FlowStops(frames, if took then k + 1 else k, if took then 0 else sent, answers, i + 1);
    StopsOn(frames, k, sent, answers, i, j, Flowed(frames, k, sent, answers, i));
  }

  /** A descriptor that takes whatever it is given, often enough, ends up with everything. */
  lemma {:induction false} AllOut(frames: seq<Frame>, k: nat, sent: nat, answers: seq<Answer>, i: nat)
    requires k <= |frames| && i <= |answers| && |answers| - i >= |frames| - k
    requires forall m, q :: i <= m < |answers| && k <= q < |frames| ==>
      answers[m].Took? && answers[m].n >= |frames[q].data|
    ensures Flowed(frames, k, sent, answers, i) == Flow(|frames|, 0, false)
    decreases |answers| - i
  {
    if k < |frames| {
      assert answers[i].Took? && answers[i].n >= |frames[k].data|;
      AllOut(frames, k + 1, 0, answers, i + 1);
    }
  }
}
