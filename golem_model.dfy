/** The per-tick decision engine of the golem enemy, on values.
    Every engine query the controller makes (sphere checks, the view angle,
    the ground raycast, the random draws, the slerped rotation) arrives as
    part of a `Percept`; the persistent fields of the controller form a
    `State`, and each action of the controller is a function from the old
    state to the new one. */
module GolemModel {

  datatype Option<T> = None | Some(value: T)

  /** A point or a direction in world space, with exact reals. */
  datatype Vec3 = Vec3(x: real, y: real, z: real)

  function Sq(v: real): real
  {
    v * v
  }

  /** Squared Euclidean distance: `|a - b| < 1` exactly when `DistSq(a, b) < 1`. */
  function DistSq(a: Vec3, b: Vec3): real
  {
    Sq(a.x - b.x) + Sq(a.y - b.y) + Sq(a.z - b.z)
  }

  /** Names of the animator states the controller plays. */
  const WalkAnim: string := "Walk"
  const IdleAnim: string := "Idle"
  const AttackAnim: string := "Attack01"

  /** The transform's rotation, as far as this controller sets it: turned to
      look at a point (`transform.LookAt`), or given a forward direction
      computed by the engine's rotation maths (`Rotate`'s slerp). */
  datatype Heading = LookingAt(point: Vec3) | Facing(forward: Vec3)

  /** The tunable parameters the decision engine reads. */
  datatype Config = Config(walkPointRange: real, viewAngle: real, timeBetweenAttacks: real)

  /** The persistent fields of the controller and of the engine objects it drives.
      `destination` is the navigation agent's destination, `animation` the
      animator's current state, `plays` the `Animator.Play` calls issued so far,
      and `pendingResets` the deadlines of the `ResetAttack` calls scheduled by
      `Invoke` and not yet run, oldest first. */
  datatype State = State(
    walkPoint: Vec3,
    walkPointSet: bool,
    alreadyAttacked: bool,
    destination: Vec3,
    heading: Heading,
    animation: string,
    plays: seq<string>,
    pendingResets: seq<real>)

  /** The cooldown invariant: a reset is pending exactly while the golem is
      cooling down, and never more than one. */
  predicate CooldownInvariant(s: State)
  {
    |s.pendingResets| <= 1 && (s.alreadyAttacked <==> |s.pendingResets| == 1)
  }

  /** What one tick of the engine reports to the controller. */
  datatype Percept = Percept(
    position: Vec3,    // transform.position
    target: Vec3,      // character.position
    sightHit: bool,    // Physics.CheckSphere(position, sightRange, character mask)
    attackHit: bool,   // Physics.CheckSphere(position, attackRange, character mask)
    angle: real,       // Vector3.Angle(transform.forward, target - position), in degrees
    ground: bool,      // Physics.Raycast below the candidate walk point hits ground
    randX: real,       // Random.Range(-walkPointRange, walkPointRange)
    randZ: real,       // Random.Range(-walkPointRange, walkPointRange)
    turned: Vec3)      // forward direction after Rotate's slerp

  /** `Random.Range(-range, range)` for floats returns a value in the closed interval. */
  predicate InDrawRange(v: real, range: real)
  {
    -range <= v <= range
  }

  predicate PerceptOk(cfg: Config, p: Percept)
  {
    InDrawRange(p.randX, cfg.walkPointRange) && InDrawRange(p.randZ, cfg.walkPointRange)
  }

  /** The four behaviours `Update` can run. */
  datatype Behaviour = Patrolling | Chasing | Rotating | Attacking

  /** `CheckIfInSightAngle`, given the angle the engine measured. */
  function InSightAngle(angle: real, viewAngle: real): bool
  {
    angle <= viewAngle
  }

  /** The behaviours whose guard holds, each of the four independent `if`s of
      `Update` contributing its own; at most one fires, and none exactly when
      the target is in attack range but not in sight range. */
  function Guards(inSight: bool, inAttack: bool, inAngle: bool): (fired: set<Behaviour>)
    ensures |fired| <= 1
    ensures fired == {} <==> inAttack && !inSight
  {
    (if !inAttack && !inSight then {Patrolling} else {})
    + (if !inAttack && inSight then {Chasing} else {})
    + (if inAttack && inSight && !inAngle then {Rotating} else {})
    + (if inAttack && inSight && inAngle then {Attacking} else {})
  }

  /** The behaviour selected for a tick, as a state machine in priority order;
      it is the one behaviour whose guard fires, if any does. */
  function Dispatch(inSight: bool, inAttack: bool, inAngle: bool): (b: Option<Behaviour>)
    ensures Guards(inSight, inAttack, inAngle) == if b.Some? then {b.value} else {}
  {
    if !inAttack then Some(if inSight then Chasing else Patrolling)
    else if !inSight then None
    else Some(if inAngle then Attacking else Rotating)
  }

  /** The Play log after asking for `name` while the animator is in `current`:
      one more Play call exactly when the two differ. */
  function LogPlay(log: seq<string>, current: string, name: string): seq<string>
  {
    if current == name then log else log + [name]
  }

  /** `PlayAnimation`: play `name` unless the animator is already in it. */
  function PlayAnimation(s: State, name: string): (r: State)
    ensures r.animation == name
    ensures s.animation == name ==> r.plays == s.plays
    ensures s.animation != name ==> r.plays == s.plays + [name]
    ensures r.(animation := s.animation, plays := s.plays) == s
  {
    if s.animation == name then s
    else s.(animation := name, plays := s.plays + [name])
  }

  /** `SearchWalkPoint`: a candidate at a random horizontal offset, at the
      golem's own height, which becomes the waypoint whether or not the ground
      probe succeeds; the probe only ever raises `walkPointSet`. */
  function SearchWalkPoint(s: State, cfg: Config, pos: Vec3, randX: real, randZ: real, ground: bool): (r: State)
    requires InDrawRange(randX, cfg.walkPointRange) && InDrawRange(randZ, cfg.walkPointRange)
    ensures r.walkPoint.y == pos.y
    ensures InDrawRange(r.walkPoint.x - pos.x, cfg.walkPointRange)
    ensures InDrawRange(r.walkPoint.z - pos.z, cfg.walkPointRange)
    ensures r.walkPointSet == (s.walkPointSet || ground)
    ensures r.(walkPoint := s.walkPoint, walkPointSet := s.walkPointSet) == s
  {
    var candidate := Vec3(pos.x + randX, pos.y, pos.z + randZ);
    s.(walkPoint := candidate, walkPointSet := s.walkPointSet || ground)
  }

  /** `Patrol`: search only when no waypoint is set, head for the waypoint
      when one is set, and drop it once the golem is strictly within 1 unit. */
  function PatrolStep(s: State, cfg: Config, pos: Vec3, randX: real, randZ: real, ground: bool): (r: State)
    requires InDrawRange(randX, cfg.walkPointRange) && InDrawRange(randZ, cfg.walkPointRange)
    // a waypoint already set is kept; a new one lies around the golem
    ensures s.walkPointSet ==> r.walkPoint == s.walkPoint
    ensures !s.walkPointSet ==>
              r.walkPoint.y == pos.y
              && InDrawRange(r.walkPoint.x - pos.x, cfg.walkPointRange)
              && InDrawRange(r.walkPoint.z - pos.z, cfg.walkPointRange)
    // arrival clears the waypoint and idles
    ensures DistSq(pos, r.walkPoint) < 1.0 ==> !r.walkPointSet && r.animation == IdleAnim
    // otherwise a waypoint that is set is the destination, and the golem walks toward it
    ensures DistSq(pos, r.walkPoint) >= 1.0 && r.walkPointSet ==>
              r.destination == r.walkPoint && r.heading == LookingAt(r.walkPoint) && r.animation == WalkAnim
    ensures r.walkPointSet <==> (s.walkPointSet || ground) && DistSq(pos, r.walkPoint) >= 1.0
    // a waypoint held or found is the destination and is faced, even on the frame it is reached
    ensures (s.walkPointSet || ground) ==> r.destination == r.walkPoint && r.heading == LookingAt(r.walkPoint)
    // with no waypoint to pursue the golem's movement and facing are left alone
    ensures !(s.walkPointSet || ground) ==> r.destination == s.destination && r.heading == s.heading
    // with no waypoint and no arrival, no animation is played
    ensures !(s.walkPointSet || ground) && DistSq(pos, r.walkPoint) >= 1.0 ==>
              r.animation == s.animation && r.plays == s.plays
    // the Play calls issued: "Walk" while pursuing a waypoint, then "Idle" on arrival, each only if not already current
    ensures (s.walkPointSet || ground) && DistSq(pos, r.walkPoint) >= 1.0 ==>
              r.plays == LogPlay(s.plays, s.animation, WalkAnim)
    ensures (s.walkPointSet || ground) && DistSq(pos, r.walkPoint) < 1.0 ==>
              r.plays == LogPlay(s.plays, s.animation, WalkAnim) + [IdleAnim]
    ensures !(s.walkPointSet || ground) && DistSq(pos, r.walkPoint) < 1.0 ==>
              r.plays == LogPlay(s.plays, s.animation, IdleAnim)
    ensures r.alreadyAttacked == s.alreadyAttacked && r.pendingResets == s.pendingResets
  {
    var searched := if !s.walkPointSet then SearchWalkPoint(s, cfg, pos, randX, randZ, ground) else s;
    var headed :=
      if searched.walkPointSet then
        PlayAnimation(searched.(destination := searched.walkPoint, heading := LookingAt(searched.walkPoint)), WalkAnim)
      else searched;
    if DistSq(pos, headed.walkPoint) < 1.0 then PlayAnimation(headed.(walkPointSet := false), IdleAnim)
    else headed
  }

  /** `Chase`: make the target's position the destination, and nothing else. */
  function ChaseStep(s: State, target: Vec3): (r: State)
    ensures r.destination == target
    ensures r.(destination := s.destination) == s
  {
    s.(destination := target)
  }

  /** `Rotate`: the facing becomes what the engine's slerp computed, and nothing else changes. */
  function RotateStep(s: State, turned: Vec3): (r: State)
    ensures r.heading == Facing(turned)
    ensures r.(heading := s.heading) == s
  {
    s.(heading := Facing(turned))
  }

  /** `Attack`: always halt at the golem's own position; when not cooling
      down, play the attack, start cooling down and schedule one reset. */
  function AttackStep(s: State, cfg: Config, pos: Vec3, now: real): (r: State)
    ensures r.destination == pos
    ensures !s.alreadyAttacked ==>
              r.alreadyAttacked && r.animation == AttackAnim
              && r.pendingResets == s.pendingResets + [now + cfg.timeBetweenAttacks]
              && r.plays == LogPlay(s.plays, s.animation, AttackAnim)
    ensures s.alreadyAttacked ==> r == s.(destination := pos)
    ensures r.walkPoint == s.walkPoint && r.walkPointSet == s.walkPointSet && r.heading == s.heading
    ensures CooldownInvariant(s) ==> CooldownInvariant(r)
  {
    var halted := s.(destination := pos);
    if !s.alreadyAttacked then
      var played := PlayAnimation(halted, AttackAnim);
      played.(alreadyAttacked := true, pendingResets := played.pendingResets + [now + cfg.timeBetweenAttacks])
    else halted
  }

  /** `ResetAttack`: stop cooling down and play the walk animation. */
  function ResetAttackStep(s: State): (r: State)
    ensures !r.alreadyAttacked && r.animation == WalkAnim
    ensures r.plays == LogPlay(s.plays, s.animation, WalkAnim)
    ensures r.(alreadyAttacked := s.alreadyAttacked, animation := s.animation, plays := s.plays) == s
  {
    PlayAnimation(s.(alreadyAttacked := false), WalkAnim)
  }

  /** The `Invoke` timer: once the oldest pending deadline has passed, that
      reset leaves the queue and `ResetAttack` runs; otherwise nothing happens. */
  function TimerTick(s: State, now: real): (r: State)
    ensures s.pendingResets == [] || now < s.pendingResets[0] ==> r == s
    ensures s.pendingResets != [] && s.pendingResets[0] <= now ==>
              !r.alreadyAttacked && r.animation == WalkAnim && r.pendingResets == s.pendingResets[1..]
              && r.plays == LogPlay(s.plays, s.animation, WalkAnim)
    ensures r.walkPoint == s.walkPoint && r.walkPointSet == s.walkPointSet
    ensures r.destination == s.destination && r.heading == s.heading
    ensures CooldownInvariant(s) ==> CooldownInvariant(r)
  {
    if s.pendingResets != [] && s.pendingResets[0] <= now then
      ResetAttackStep(s.(pendingResets := s.pendingResets[1..]))
    else s
  }

  /** `Update`: select the behaviour from the three perception booleans and run it. */
  function Update(s: State, cfg: Config, p: Percept, now: real): (r: State)
    requires PerceptOk(cfg, p)
    // target in attack range but out of sight range: a tick in which nothing happens
    ensures p.attackHit && !p.sightHit ==> r == s
    // only Patrol touches the waypoint
    ensures (r.walkPoint != s.walkPoint || r.walkPointSet != s.walkPointSet) ==> !p.attackHit && !p.sightHit
    // only Attack touches the cooldown, and only when it may trigger
    ensures (r.alreadyAttacked != s.alreadyAttacked || r.pendingResets != s.pendingResets) ==>
              p.attackHit && p.sightHit && p.angle <= cfg.viewAngle && !s.alreadyAttacked
    ensures s.alreadyAttacked ==> r.alreadyAttacked && r.pendingResets == s.pendingResets
    ensures p.attackHit && p.sightHit && p.angle <= cfg.viewAngle ==>
              r.destination == p.position
              && (!s.alreadyAttacked ==>
                    r.alreadyAttacked && r.animation == AttackAnim
                    && r.pendingResets == s.pendingResets + [now + cfg.timeBetweenAttacks])
    ensures !p.attackHit && p.sightHit ==> r.destination == p.target
    ensures p.attackHit && p.sightHit && p.angle > cfg.viewAngle ==> r.heading == Facing(p.turned)
    ensures CooldownInvariant(s) ==> CooldownInvariant(r)
  {
    match Dispatch(p.sightHit, p.attackHit, InSightAngle(p.angle, cfg.viewAngle))
    case None => s
    case Some(Patrolling) => PatrolStep(s, cfg, p.position, p.randX, p.randZ, p.ground)
    case Some(Chasing) => ChaseStep(s, p.target)
    case Some(Rotating) => RotateStep(s, p.turned)
    case Some(Attacking) => AttackStep(s, cfg, p.position, now)
  }

  /** Which action `Update` runs, case by case over the perception booleans. */
  lemma UpdateCases(s: State, cfg: Config, p: Percept, now: real)
    requires PerceptOk(cfg, p)
    ensures p.attackHit && !p.sightHit ==> Update(s, cfg, p, now) == s
    ensures !p.attackHit && !p.sightHit ==>
              Update(s, cfg, p, now) == PatrolStep(s, cfg, p.position, p.randX, p.randZ, p.ground)
    ensures !p.attackHit && p.sightHit ==> Update(s, cfg, p, now) == ChaseStep(s, p.target)
    ensures p.attackHit && p.sightHit && !InSightAngle(p.angle, cfg.viewAngle) ==>
              Update(s, cfg, p, now) == RotateStep(s, p.turned)
    ensures p.attackHit && p.sightHit && InSightAngle(p.angle, cfg.viewAngle) ==>
              Update(s, cfg, p, now) == AttackStep(s, cfg, p.position, now)
  {
  }
}
