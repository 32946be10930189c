/** The race between the parallel and the serial processor in ProcessBlock (core/blockchain.go),
    as a state machine over the arrival of their results. */
module ProcessRace {

  datatype Who = Parallel | Serial

  /** A processor is absent, running, has sent its result, or had its result received. */
  datatype Runner = Absent | Active | Sent(ok: bool) | Received(ok: bool)

  /** First: waiting for any result. Fallback: the parallel processor failed, the serial result
      is awaited. Chosen: a result is in hand, nothing cancelled yet. Draining: cancelled,
      waiting for the loser. */
  datatype Main = First | Fallback | Chosen(ok: bool, drain: bool) | Draining(ok: bool) | Done(ok: bool)

  datatype Race = Race(par: Runner, ser: Runner, cancelled: bool, main: Main, parFirst: bool)

  /** What the processors yield when they run to completion. */
  datatype Env = Env(par: bool, ser: bool)

  datatype Event =
    | Finish(who: Who, honoured: bool)   // a processor ends; it may honour a cancellation
    | Receive(who: Who)                  // the main thread takes a result from the channel
    | Cancel                             // the main thread cancels the shared context

  function Get(s: Race, who: Who): (r: Runner) { if who.Parallel? then s.par else s.ser }

  function Put(s: Race, who: Who, r: Runner): (s': Race) {
    if who.Parallel? then s.(par := r) else s.(ser := r)
  }

  /** At least one processor is started; the serial one is not if parallel is enforced. */
  predicate Init(s: Race) {
    && (s.par.Absent? || s.par.Active?) && (s.ser.Absent? || s.ser.Active?)
    && (s.par.Active? || s.ser.Active?)
    && !s.cancelled && s.main.First? && !s.parFirst
  }

  predicate Enabled(s: Race, e: Event) {
    match e
    case Finish(who, honoured) => Get(s, who).Active? && (honoured ==> s.cancelled)
    case Receive(who) => Get(s, who).Sent? && (s.main.First? || s.main.Fallback? || s.main.Draining?)
    case Cancel => s.main.Chosen?
  }

  function Next(env: Env, s: Race, e: Event): (s': Race)
    requires Enabled(s, e)
  {
    match e
    case Finish(who, honoured) => Put(s, who, Sent(!honoured && (if who.Parallel? then env.par else env.ser)))
    case Receive(who) =>
      var ok := Get(s, who).ok;
      var both := !s.par.Absent? && !s.ser.Absent?;
      var s1 := Put(s, who, Received(ok)).(parFirst := if s.main.First? then who.Parallel? else s.parFirst);
      (match s.main
       case First => if who.Parallel? && !ok && both then s1.(main := Fallback) else s1.(main := Chosen(ok, both))
       case Fallback => s1.(main := Chosen(ok, false))
       case Draining(r) => s1.(main := Done(r))
       case _ => s1)
    case Cancel => s.(cancelled := true, main := if s.main.drain then Draining(s.main.ok) else Done(s.main.ok))
  }

  ghost predicate Leads(env: Env, s: Race, es: seq<Event>, s': Race)
    decreases |es|
  {
    if es == [] then s' == s else Enabled(s, es[0]) && Leads(env, Next(env, s, es[0]), es[1..], s')
  }

  predicate Out(r: Runner) { r.Absent? || r.Received? }

  /** How many results the main thread has taken. */
  function Taken(s: Race): (n: nat) { (if s.par.Received? then 1 else 0) + (if s.ser.Received? then 1 else 0) }

  /** Nothing is cancelled before a result is chosen; uncancelled processors yield their own
      result; the chosen result is the first one received, or the serial one after a failed
      parallel one. */
  ghost predicate Inv(env: Env, s: Race) {
    && (!s.par.Absent? || !s.ser.Absent?)
    && (s.cancelled <==> s.main.Draining? || s.main.Done?)
    && (!s.cancelled && (s.par.Sent? || s.par.Received?) ==> s.par.ok == env.par)
    && (!s.cancelled && (s.ser.Sent? || s.ser.Received?) ==> s.ser.ok == env.ser)
    && match s.main
       case First => Taken(s) == 0
       case Fallback => s.par.Received? && !s.ser.Absent? && !s.ser.Received? && !env.par && s.parFirst
       case Chosen(ok, drain) => Picked(env, s, ok) && Taken(s) >= 1 && (drain <==> !(Out(s.par) && Out(s.ser)))
       case Draining(ok) => Picked(env, s, ok) && Taken(s) == 1 && !s.par.Absent? && !s.ser.Absent?
       case Done(ok) => Picked(env, s, ok) && Out(s.par) && Out(s.ser)
  }

  /** The result to return, by which processors were started and which one was first. */
  ghost predicate Picked(env: Env, s: Race, ok: bool) {
    ok == if s.ser.Absent? then env.par
          else if s.par.Absent? then env.ser
          else if s.parFirst && env.par then true
          else env.ser
  }

  /** A race may start with either processor alone or with both. */
  lemma RaceStarts(par: bool, ser: bool)
    ensures Init(Race(if par then Active else Absent, if ser then Active else Absent, false, First, false)) <==>
            par || ser
  {
  }

  lemma StepKeeps(env: Env, s: Race, e: Event)
    requires Inv(env, s) && Enabled(s, e)
    ensures Inv(env, Next(env, s, e))
  {
  }

  lemma {:induction false} RunKeeps(env: Env, s: Race, es: seq<Event>, s': Race)
    requires Inv(env, s) && Leads(env, s, es, s')
    ensures Inv(env, s') && (s'.par.Absent? <==> s.par.Absent?) && (s'.ser.Absent? <==> s.ser.Absent?)
    decreases |es|
  {
    if es != [] {
      StepKeeps(env, s, es[0]);
      RunKeeps(env, Next(env, s, es[0]), es[1..], s');
    }
  }

  /** For every arrival order: when ProcessBlock returns, every started processor's result has
      been received; the call succeeds if the serial processor was started and succeeds when run
      to completion; and it succeeds exactly if the serial one does, or the parallel one does
      and was either first or alone. */
  lemma RaceIsSafe(env: Env, s: Race, es: seq<Event>, s': Race)
    requires Init(s) && Leads(env, s, es, s') && s'.main.Done?
    ensures Out(s'.par) && Out(s'.ser)
    ensures s.ser.Active? && env.ser ==> s'.main.ok
    ensures s'.main.ok <==> (s.ser.Active? && env.ser) || (s.par.Active? && env.par && (s'.parFirst || s.ser.Absent?))
  {
    RunKeeps(env, s, es, s');
  }

  /** An error of the parallel processor never cancels a serial run that is still needed. */
  lemma FallbackIsNotCancelled(env: Env, s: Race, es: seq<Event>, s': Race)
    requires Init(s) && Leads(env, s, es, s') && (s'.main.First? || s'.main.Fallback?)
    ensures !s'.cancelled
    ensures s'.ser.Sent? ==> s'.ser.ok == env.ser
  {
    RunKeeps(env, s, es, s');
  }

  /** A result is taken at most once, and the race always moves on until it is done. */
  lemma RaceProgresses(env: Env, s: Race, es: seq<Event>, s': Race) returns (e: Event)
    requires Init(s) && Leads(env, s, es, s') && !s'.main.Done?
    ensures Enabled(s', e)
    ensures e.Receive? ==> Taken(Next(env, s', e)) == Taken(s') + 1
  {
    RunKeeps(env, s, es, s');
    e := if s'.main.Chosen? then Cancel
         else if s'.par.Sent? then Receive(Parallel)
         else if s'.ser.Sent? then Receive(Serial)
         else if s'.par.Active? then Finish(Parallel, false)
         else Finish(Serial, false);
  }
}
