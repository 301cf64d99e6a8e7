/**
 When a flight goes out again, over every run: how long a peer waits, what the timer and a message
 of the other side do, and what a finished peer still answers.
 */
module HandshakeTimers {
  import opened Bytes
  import opened HandshakeFsm

  /** How often the timer has had the flight sent again since the last message. */
  function Silence(cfg: Config, isClient: bool, inputs: seq<Input>): nat {
    if inputs == [] then 0
    else
      var front, i := inputs[..|inputs| - 1], inputs[|inputs| - 1];
      var m, n := Run(cfg, isClient, front), Run(cfg, isClient, inputs);
      if m.phase != Waiting then Silence(cfg, isClient, front)
      else if i.Received? || i.Cancelled? then 0
      else Silence(cfg, isClient, front) + if i.Timeout? && n.phase == Sending then 1 else 0
  }

  /** The wait after `k` expiries: twice as long each time, and at most a minute. */
  function WaitAfter(cfg: Config, k: nat): nat {
    if k == 0 then cfg.interval
    else Min(60000, if cfg.disableBackoff then cfg.interval else Doubled(cfg.interval, k))
  }

  lemma NextWait(cfg: Config, k: nat)
    ensures Backoff(cfg, WaitAfter(cfg, k)) == WaitAfter(cfg, k + 1)
  {
  }

  lemma StepWait(cfg: Config, m: Fsm, i: Input)
    ensures var n := Step(cfg, m, i);
            n.interval == if m.phase != Waiting then m.interval
                          else if i.Received? || i.Cancelled? then cfg.interval
                          else if i.Timeout? && n.phase == Sending then Backoff(cfg, m.interval)
                          else m.interval
  {
    hide Parse, OwnVerify, NumbersFrom, Backoff;
  }

  /** In every run the wait has doubled with each expiry since the last message, up to a minute. */
  lemma {:induction false} WaitIs(cfg: Config, isClient: bool, inputs: seq<Input>)
    ensures Run(cfg, isClient, inputs).interval == WaitAfter(cfg, Silence(cfg, isClient, inputs))
  {
    if inputs != [] {
      hide Step, Backoff, WaitAfter;
      var front, i := inputs[..|inputs| - 1], inputs[|inputs| - 1];
      WaitIs(cfg, isClient, front);
      StepWait(cfg, Run(cfg, isClient, front), i);
      NextWait(cfg, Silence(cfg, isClient, front));
      assert WaitAfter(cfg, 0) == cfg.interval by { FirstWait(cfg); }
    }
  }

  lemma FirstWait(cfg: Config)
    ensures WaitAfter(cfg, 0) == cfg.interval
  {
  }

  /** The same flight, with the same numbers, goes out again. */
  ghost predicate SendsAgain(m: Fsm, n: Fsm) {
    n.phase == Sending && n.flight == m.flight && n.numbers == m.numbers && n.state == m.state
  }

  /**
   In every run a peer that waits sends its flight again when the other side repeats its own, and,
   except for flight 2, when the timer expires.
   */
  lemma WaitingSendsAgain(cfg: Config, isClient: bool, inputs: seq<Input>)
    requires Run(cfg, isClient, inputs).phase == Waiting
    ensures var m := Run(cfg, isClient, inputs);
            && SendsAgain(m, Step(cfg, m, Retransmitted))
            && if m.flight == F2 then Step(cfg, m, Timeout) == m else SendsAgain(m, Step(cfg, m, Timeout))
  {
    hide Run, Backoff;
    RunFlights(cfg, isClient, inputs);
  }

  /**
   In every run a finished client stays as it is whatever comes, until it is cancelled; a finished
   server answers every message by sending its last flight again, and is then finished as before
   in flight 6 and waits in flight 4b.
   */
  lemma FinishedAnswers(cfg: Config, isClient: bool, inputs: seq<Input>, i: Input)
    requires Run(cfg, isClient, inputs).phase == Finished && i != Cancelled
    ensures var m := Run(cfg, isClient, inputs);
            var n := Step(cfg, m, i);
            && (isClient ==> n == m)
            && (!isClient && (i.Received? || i.Retransmitted?) ==>
                  SendsAgain(m, n) && Step(cfg, n, Written(true)) == if m.flight == F6 then m else m.(phase := Waiting))
            && (!isClient && !(i.Received? || i.Retransmitted?) ==> n == m)
  {
    hide Run;
    RunFlights(cfg, isClient, inputs);
  }

  /** In every run cancellation ends a handshake that waits or is finished, and nothing revives it. */
  lemma {:induction false} CancelledEnds(cfg: Config, isClient: bool, inputs: seq<Input>, more: seq<Input>)
    requires Run(cfg, isClient, inputs).phase in {Waiting, Finished}
    ensures Run(cfg, isClient, inputs + [Cancelled] + more).phase == Errored
  {
    if more == [] {
      assert inputs + [Cancelled] + more == inputs + [Cancelled];
      LastStep(cfg, isClient, inputs, Cancelled);
    } else {
      var front, i := more[..|more| - 1], more[|more| - 1];
      CancelledEnds(cfg, isClient, inputs, front);
      assert inputs + [Cancelled] + more == inputs + [Cancelled] + front + [i];
      LastStep(cfg, isClient, inputs + [Cancelled] + front, i);
      StaysErrored(cfg, Run(cfg, isClient, inputs + [Cancelled] + front), i);
    }
  }
}
