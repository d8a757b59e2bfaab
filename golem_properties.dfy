/** Properties of the golem's decision engine over a sequence of ticks:
    the cooldown invariant is kept, and between an attack and its scheduled
    reset no further attack triggers. */
module GolemProperties {
  import opened GolemModel

  /** One thing the engine does to the controller: run a due `Invoke`
      callback at time `now`, or call `Update` in a frame at time `now`. */
  datatype Event = TimerFires(now: real) | Frame(now: real, percept: Percept)

  predicate EventOk(cfg: Config, e: Event)
  {
    e.TimerFires? || PerceptOk(cfg, e.percept)
  }

  function Apply(s: State, cfg: Config, e: Event): State
    requires EventOk(cfg, e)
  {
    match e
    case TimerFires(t) => TimerTick(s, t)
    case Frame(t, p) => Update(s, cfg, p, t)
  }

  /** The state after a sequence of events; it keeps the cooldown invariant. */
  function Run(s: State, cfg: Config, events: seq<Event>): (r: State)
    requires forall i :: 0 <= i < |events| ==> EventOk(cfg, events[i])
    ensures CooldownInvariant(s) ==> CooldownInvariant(r)
    decreases |events|
  {
    if events == [] then s
    else Run(Apply(s, cfg, events[0]), cfg, events[1..])
  }

  /** While the only pending reset is due at `deadline`, no event before the
      deadline ends the cooldown or schedules another reset. */
  lemma {:induction false} NoRetriggerBeforeDeadline(s: State, cfg: Config, deadline: real, events: seq<Event>)
    requires s.alreadyAttacked && s.pendingResets == [deadline]
    requires forall i :: 0 <= i < |events| ==> EventOk(cfg, events[i])
    requires forall i :: 0 <= i < |events| ==> events[i].now < deadline
    ensures Run(s, cfg, events).alreadyAttacked
    ensures Run(s, cfg, events).pendingResets == [deadline]
    decreases |events|
  {
    if events != [] {
      var next := Apply(s, cfg, events[0]);
      assert next.alreadyAttacked && next.pendingResets == [deadline];
      NoRetriggerBeforeDeadline(next, cfg, deadline, events[1..]);
    }
  }

  /** The cooldown round trip: an attack frame at `t0` triggers and schedules
      one reset at `t0 + timeBetweenAttacks`; no event before then triggers
      again; the timer at or after that deadline runs the reset (not cooling
      down, animation "Walk"); and the next attack frame triggers again. */
  lemma {:induction false} CooldownRoundTrip(
    s: State, cfg: Config, t0: real, p: Percept, events: seq<Event>, t1: real, t2: real, p2: Percept)
    requires CooldownInvariant(s) && !s.alreadyAttacked
    requires PerceptOk(cfg, p) && p.attackHit && p.sightHit && p.angle <= cfg.viewAngle
    requires forall i :: 0 <= i < |events| ==> EventOk(cfg, events[i])
    requires forall i :: 0 <= i < |events| ==> events[i].now < t0 + cfg.timeBetweenAttacks
    requires t1 >= t0 + cfg.timeBetweenAttacks
    requires PerceptOk(cfg, p2) && p2.attackHit && p2.sightHit && p2.angle <= cfg.viewAngle
    ensures var s1 := Update(s, cfg, p, t0);
            s1.alreadyAttacked && s1.animation == AttackAnim
            && s1.pendingResets == [t0 + cfg.timeBetweenAttacks]
    ensures var s2 := Run(Update(s, cfg, p, t0), cfg, events);
            s2.alreadyAttacked && s2.pendingResets == [t0 + cfg.timeBetweenAttacks]
    ensures var s3 := TimerTick(Run(Update(s, cfg, p, t0), cfg, events), t1);
            !s3.alreadyAttacked && s3.animation == WalkAnim && s3.pendingResets == []
    ensures var s4 := Update(TimerTick(Run(Update(s, cfg, p, t0), cfg, events), t1), cfg, p2, t2);
            s4.alreadyAttacked && s4.animation == AttackAnim
            && s4.pendingResets == [t2 + cfg.timeBetweenAttacks]
  {
    var s1 := Update(s, cfg, p, t0);
    assert s1.pendingResets == [t0 + cfg.timeBetweenAttacks];
    NoRetriggerBeforeDeadline(s1, cfg, t0 + cfg.timeBetweenAttacks, events);
  }
}
