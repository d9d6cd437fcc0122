/** The lockstep simulation (`restart`, `runSubstep` and `runStep` in
    script.js) as functions on a value of the whole state. `Engine` runs the
    same steps in place and is proved equal to these functions. */
module Simulation {
  import opened Wrappers
  import opened Text
  import opened Commands
  import opened Compiler

  /** A record of `planes`: its position on the track, its fuel, and the
      colour tag of its last `view` (absent before the first). */
  datatype Plane = Plane(pos: int, fuel: int, color: Option<string>)

  /** Everything a step reads or changes: the command queues, their names in
      the order `for (const planeId in queues)` visits them, the plane
      records and `sim`. */
  datatype World = World(
    queues: map<Id, seq<Command>>,
    ids: seq<Id>,
    planes: map<Id, Plane>,
    sim: Settings)

  /** What the step functions need to be defined at all: a track of positive
      size and a queue for every name they visit. */
  predicate Runnable(w: World)
  {
    w.sim.time > 0 && forall x :: x in w.ids ==> x in w.queues
  }

  /** The state a successful `restart` leaves and every step keeps: a track
      and a tank of positive size, the names of the queues listed once each,
      a plane record per queue, and every `give` naming planes that exist. */
  ghost predicate WellFormed(w: World)
  {
    && w.sim.time > 0 && w.sim.fuel > 0
    && Distinct(w.ids)
    && (forall id :: id in w.queues <==> id in w.ids)
    && w.planes.Keys == w.queues.Keys
    && RecipientsKnown(w.queues)
  }

  /** What every step keeps: the same names, settings and planes. */
  ghost predicate SameShape(w: World, w': World)
  {
    && w'.ids == w.ids && w'.sim == w.sim
    && w'.queues.Keys == w.queues.Keys && w'.planes.Keys == w.planes.Keys
  }

  /** Every `give` in the queues `q'` was already in the same queue of `q`:
      the steps only remove commands and count `wait`s down. */
  ghost predicate NoNewGives(q: map<Id, seq<Command>>, q': map<Id, seq<Command>>)
  {
    forall x, c :: x in q' && c in q'[x] && c.Give? ==> x in q && c in q[x]
  }

  /** The errors a step throws. `NoSuchPlane` is the TypeError of reading a
      field of `planes[id]` when no plane has that name. */
  datatype Violation =
    | OutOfFuel(plane: Id)
    | CannotGive(plane: Id, amount: int, count: nat, available: int)
    | TooFarApart(plane: Id, recipient: Id)
    | CannotWait(plane: Id)
    | NoSuchPlane(plane: Id)

  /** JavaScript's `%`: the remainder of division truncated toward zero,
      which differs from `x` by a multiple of `n` and takes the sign of `x`. */
  function JsRem(x: int, n: int): (r: int)
    requires n > 0
    ensures -n < r < n
    ensures (x - r) % n == 0
    ensures x >= 0 ==> r >= 0
    ensures x <= 0 ==> r <= 0
  {
    if x >= 0 then
      ModUnique(x - x % n, n, x / n, 0);
      x % n
    else
      ModUnique(x + (-x) % n, n, -((-x) / n), 0);
      -((-x) % n)
  }

  /** A multiple of `n` strictly between `-n` and `n` is zero. */
  lemma SmallMultiple(k: int, n: int)
    requires n > 0 && -n < k * n < n
    ensures k == 0
  {
  }

  /** Euclidean remainders are unique. */
  lemma ModUnique(x: int, n: int, q: int, r: int)
    requires n > 0 && 0 <= r < n && x == q * n + r
    ensures x % n == r
  {
    var d := x / n;
    assert x == d * n + x % n;
    assert (q - d) * n == x % n - r;
    SmallMultiple(q - d, n);
  }

  /** The contract of `JsRem` pins its result down: it is the only value
      below `n` in size that differs from `x` by a multiple of `n` and
      has the sign of `x`. */
  lemma JsRemUnique(x: int, n: int, r: int)
    requires n > 0 && -n < r < n && (x - r) % n == 0
    requires x >= 0 ==> r >= 0
    requires x <= 0 ==> r <= 0
    ensures r == JsRem(x, n)
  {
    var j := JsRem(x, n);
    var a, b := (x - r) / n, (x - j) / n;
    assert x - r == a * n;
    assert x - j == b * n;
    assert (b - a) * n == r - j;
    SmallMultiple(b - a, n);
  }

  /** Adding `n` to a negative truncated remainder gives the Euclidean one. */
  lemma JsRemFixed(x: int, n: int)
    requires n > 0
    ensures (if JsRem(x, n) < 0 then JsRem(x, n) + n else JsRem(x, n)) == x % n
  {
    var r := JsRem(x, n);
    var q := (x - r) / n;
    assert x - r == q * n;
    if r < 0 {
      ModUnique(x, n, q - 1, r + n);
    } else {
      ModUnique(x, n, q, r);
    }
  }

  /** `v = v % n; if (v < 0) v += n;` */
  function Wrap(x: int, n: int): (r: int)
    requires n > 0
    ensures 0 <= r < n
  {
    var r := JsRem(x, n);
    if r < 0 then r + n else r
  }

  /** The wrapped value is the Euclidean remainder. */
  lemma WrapIsMod(x: int, n: int)
    requires n > 0
    ensures Wrap(x, n) == x % n
  {
    JsRemFixed(x, n);
  }

  function Abs(x: int): nat
  {
    if x < 0 then -x else x
  }

  /** `Math.sign` on an integer. */
  function Sign(x: int): int
  {
    if x > 0 then 1 else if x < 0 then -1 else 0
  }

  /** `queue.shift()` on plane `id`'s queue. */
  function Dequeue(w: World, id: Id): World
    requires id in w.queues && w.queues[id] != []
  {
    w.(queues := w.queues[id := w.queues[id][1..]])
  }

  /** `if (plane.pos == 0) plane.fuel = sim.fuel;` */
  function Refuel(w: World, id: Id): World
    requires id in w.planes
  {
    var p := w.planes[id];
    if p.pos == 0 then w.(planes := w.planes[id := p.(fuel := w.sim.fuel)]) else w
  }

  /** The outcome of running one front command: the new state and whether
      the inner loop goes on (`stop = false`), or the state at a throw. */
  datatype Effect = Done(w: World, chain: bool) | Thrown(w: World, violation: Violation)

  /** What every command keeps: the shape, the other planes' queues, no new
      `give`, and a shorter queue for the running plane whenever the loop
      goes on. */
  ghost predicate Keeps(w: World, id: Id, e: Effect)
    requires id in w.queues
  {
    && SameShape(w, e.w)
    && (forall x :: x in w.queues && x != id ==> e.w.queues[x] == w.queues[x])
    && (forall c :: c in e.w.queues[id] && c.Give? ==> c in w.queues[id])
    && |e.w.queues[id]| <= |w.queues[id]|
    && (e.Done? && e.chain ==> |e.w.queues[id]| < |w.queues[id]|)
  }

  /** What a command needs: a track, a queue with a front command and a
      plane record. */
  predicate Ready(w: World, id: Id)
  {
    w.sim.time > 0 && id in w.queues && w.queues[id] != [] && id in w.planes
  }

  /** The `goto` case (script.js:274-298). */
  function ExecGoto(w: World, id: Id): Effect
    requires Ready(w, id) && w.queues[id][0].Goto?
  {
    var n := w.sim.time;
    var p := w.planes[id];
    var dest := Wrap(w.queues[id][0].dest, n);
    var delta := dest - p.pos;
    var dist := Abs(delta);
    if dist == 0 then Done(Dequeue(w, id), true)
    else if p.fuel <= 0 then Thrown(w, OutOfFuel(id))
    else
      var pos := Wrap(if 2 * dist <= n then p.pos + Sign(delta) else p.pos - Sign(delta), n);
      var w1 := w.(planes := w.planes[id := p.(pos := pos, fuel := p.fuel - 1)]);
      Done(if pos == dest then Dequeue(w1, id) else w1, false)
  }

  /** The `for (const id of cmd.recv)` loop of a `give` by plane `giver` at
      position `at`: each recipient in turn must exist and be at `at`, and
      is credited `amount`; the loop stops with the credits made so far at
      the first one that is not. */
  function Credit(planes: map<Id, Plane>, at: int, recv: seq<Id>, amount: int, giver: Id): (r: (map<Id, Plane>, Option<Violation>))
    ensures r.0.Keys == planes.Keys
    decreases |recv|
  {
    if recv == [] then (planes, None)
    else
      var x := recv[0];
      if x !in planes then (planes, Some(NoSuchPlane(x)))
      else if planes[x].pos != at then (planes, Some(TooFarApart(giver, x)))
      else Credit(planes[x := planes[x].(fuel := planes[x].fuel + amount)], at, recv[1..], amount, giver)
  }

  /** The `give` case (script.js:302-313): the whole amount is deducted
      first, then the recipients are credited one by one. */
  function ExecGive(w: World, id: Id): Effect
    requires Ready(w, id) && w.queues[id][0].Give?
  {
    var c := w.queues[id][0];
    var p := w.planes[id];
    var total := c.amount * |c.recv|;
    if p.fuel < total then Thrown(w, CannotGive(id, c.amount, |c.recv|, p.fuel))
    else
      var (planes, v) := Credit(w.planes[id := p.(fuel := p.fuel - total)], p.pos, c.recv, c.amount, id);
      var w1 := w.(planes := planes);
      if v.Some? then Thrown(w1, v.value) else Done(Dequeue(w1, id), true)
  }

  /** The `wait` case (script.js:318-330): a counter still at or above zero
      is decremented in place, and off base the wait costs one fuel. */
  function ExecWait(w: World, id: Id): Effect
    requires Ready(w, id) && w.queues[id][0].Wait?
  {
    var t := w.queues[id][0].time;
    var p := w.planes[id];
    if t >= 0 then
      var w1 := w.(queues := w.queues[id := [Wait(t - 1)] + w.queues[id][1..]]);
      if p.pos == 0 then Done(w1, false)
      else if p.fuel <= 0 then Thrown(w1, CannotWait(id))
      else Done(w1.(planes := w.planes[id := p.(fuel := p.fuel - 1)]), false)
    else Done(Dequeue(w, id), true)
  }

  /** The `view` case (script.js:334-337): the loop stops after one view. */
  function ExecView(w: World, id: Id): Effect
    requires Ready(w, id) && w.queues[id][0].View?
  {
    var p := w.planes[id];
    Done(Dequeue(w, id).(planes := w.planes[id := p.(color := Some(w.queues[id][0].color))]), false)
  }

  /** The `switch (cmd.type)` on the front command. */
  function Exec(w: World, id: Id): Effect
    requires Ready(w, id)
  {
    match w.queues[id][0]
    case Goto(_) => ExecGoto(w, id)
    case Give(_, _) => ExecGive(w, id)
    case Wait(_) => ExecWait(w, id)
    case View(_) => ExecView(w, id)
  }

  lemma DequeueKeeps(w: World, id: Id)
    requires id in w.queues && w.queues[id] != []
    ensures Keeps(w, id, Done(Dequeue(w, id), true))
  {
    forall c | c in w.queues[id][1..] ensures c in w.queues[id] {
    }
  }

  lemma GotoKeeps(w: World, id: Id)
    requires Ready(w, id) && w.queues[id][0].Goto?
    ensures Keeps(w, id, ExecGoto(w, id))
  {
    var n := w.sim.time;
    var p := w.planes[id];
    var dest := Wrap(w.queues[id][0].dest, n);
    var dist := Abs(dest - p.pos);
    if dist == 0 {
      DequeueKeeps(w, id);
    } else if p.fuel > 0 {
      var pos := Wrap(if 2 * dist <= n then p.pos + Sign(dest - p.pos) else p.pos - Sign(dest - p.pos), n);
      var w1 := w.(planes := w.planes[id := p.(pos := pos, fuel := p.fuel - 1)]);
      if pos == dest {
        DequeueKeeps(w1, id);
        assert ExecGoto(w, id) == Done(Dequeue(w1, id), false);
      } else {
        assert ExecGoto(w, id) == Done(w1, false);
      }
    }
  }

  lemma GiveKeeps(w: World, id: Id)
    requires Ready(w, id) && w.queues[id][0].Give?
    ensures Keeps(w, id, ExecGive(w, id))
  {
    var c := w.queues[id][0];
    var p := w.planes[id];
    var w1 := w.(planes := Credit(w.planes[id := p.(fuel := p.fuel - c.amount * |c.recv|)], p.pos, c.recv, c.amount, id).0);
    DequeueKeeps(w1, id);
  }

  lemma WaitKeeps(w: World, id: Id)
    requires Ready(w, id) && w.queues[id][0].Wait?
    ensures Keeps(w, id, ExecWait(w, id))
  {
    var t := w.queues[id][0].time;
    if t >= 0 {
      var q := [Wait(t - 1)] + w.queues[id][1..];
      forall c | c in q && c.Give? ensures c in w.queues[id] {
        assert c in w.queues[id][1..];
      }
    } else {
      DequeueKeeps(w, id);
    }
  }

  /** Every command keeps the shape of the state and the other planes'
      queues, adds no `give`, never lengthens its own queue, and shortens it
      when the loop goes on. */
  lemma ExecKeeps(w: World, id: Id)
    requires Ready(w, id)
    ensures Keeps(w, id, Exec(w, id))
  {
    match w.queues[id][0]
    case Goto(_) => GotoKeeps(w, id);
    case Give(_, _) => GiveKeeps(w, id);
    case Wait(_) => WaitKeeps(w, id);
    case View(_) => DequeueKeeps(w, id);
  }

  /** The state after some planes were served, whether one of them acted,
      and the violation thrown, if any. */
  datatype Served = Served(w: World, acted: bool, thrown: Option<Violation>)

  /** The `while (!stop)` loop for one plane in the phase for `k`: nothing
      to do on an empty queue; otherwise a refuel at base, then the front
      command if it is of kind `k`. */
  function Serve(w: World, id: Id, k: Kind): (r: Served)
    requires w.sim.time > 0 && id in w.queues
    ensures SameShape(w, r.w)
    ensures forall x :: x in w.queues && x != id ==> r.w.queues[x] == w.queues[x]
    ensures forall c :: c in r.w.queues[id] && c.Give? ==> c in w.queues[id]
    decreases |w.queues[id]|, 1
  {
    if w.queues[id] == [] then Served(w, false, None)
    else if id !in w.planes then Served(w, false, Some(NoSuchPlane(id)))
    else
      var w1 := Refuel(w, id);
      if KindOf(w1.queues[id][0]) != k then Served(w1, false, None)
      else Act(w1, id, k)
  }

  /** `action = true`, the front command, and another pass of the loop when
      the command left `stop` false. */
  function Act(w: World, id: Id, k: Kind): (r: Served)
    requires Ready(w, id)
    ensures SameShape(w, r.w)
    ensures forall x :: x in w.queues && x != id ==> r.w.queues[x] == w.queues[x]
    ensures forall c :: c in r.w.queues[id] && c.Give? ==> c in w.queues[id]
    decreases |w.queues[id]|, 0
  {
    ExecKeeps(w, id);
    match Exec(w, id)
    case Thrown(w2, v) => Served(w2, true, Some(v))
    case Done(w2, chain) =>
      if chain then
        var r := Serve(w2, id, k);
        Served(r.w, true, r.thrown)
      else Served(w2, true, None)
  }

  /** The `for (const planeId in queues)` loop over `ids`, stopping at a
      throw. */
  function ServeAll(w: World, ids: seq<Id>, k: Kind): (r: Served)
    requires w.sim.time > 0 && forall x :: x in ids ==> x in w.queues
    ensures SameShape(w, r.w) && NoNewGives(w.queues, r.w.queues)
    decreases |ids|
  {
    if ids == [] then Served(w, false, None)
    else
      var r := Serve(w, ids[0], k);
      if r.thrown.Some? then r
      else
        var rest := ServeAll(r.w, ids[1..], k);
        Served(rest.w, r.acted || rest.acted, rest.thrown)
  }

  /** `runSubstep(type)`: every plane, in order, for one command kind. */
  function Phase(w: World, k: Kind): (r: Served)
    requires Runnable(w)
    ensures Runnable(r.w) && SameShape(w, r.w) && NoNewGives(w.queues, r.w.queues)
  {
    ServeAll(w, w.ids, k)
  }

  predicate AllEmpty(queues: map<Id, seq<Command>>)
  {
    forall id :: id in queues ==> queues[id] == []
  }

  /** How a step ended: it acted (and every queue is now empty, or not), no
      phase had anything to do, or a phase threw. */
  datatype StepResult = Progressed(finished: bool) | Stalled | Failed(violation: Violation)

  datatype Stepped = Stepped(w: World, result: StepResult)

  /** The decision `runStep` makes once its phases ran (script.js:197-205
      and 244). */
  function Conclude(w: World, acted: bool): StepResult
  {
    if !acted then Stalled else Progressed(AllEmpty(w.queues))
  }

  /** `runSubstep("goto") | runSubstep("give") | runSubstep("wait") |
      runSubstep("view")`: all four phases, the later ones skipped after a
      throw. */
  function Step(w: World): (r: Stepped)
    requires Runnable(w)
    ensures Runnable(r.w) && SameShape(w, r.w) && NoNewGives(w.queues, r.w.queues)
  {
    var g := Phase(w, GotoKind);
    if g.thrown.Some? then Stepped(g.w, Failed(g.thrown.value))
    else
      var f := Phase(g.w, GiveKind);
      if f.thrown.Some? then Stepped(f.w, Failed(f.thrown.value))
      else
        var t := Phase(f.w, WaitKind);
        if t.thrown.Some? then Stepped(t.w, Failed(t.thrown.value))
        else
          var v := Phase(t.w, ViewKind);
          if v.thrown.Some? then Stepped(v.w, Failed(v.thrown.value))
          else Stepped(v.w, Conclude(v.w, g.acted || f.acted || t.acted || v.acted))
  }

  /** The queues and the plane records the set-up loop of `restart` builds. */
  datatype Fleet = Fleet(queues: map<Id, seq<Command>>, planes: map<Id, Plane>)

  /** A new plane record: at base with `cap` fuel and no colour. */
  function AtBase(cap: int): Plane
  {
    Plane(0, cap, None)
  }

  /** The loop `for (let id in queues)` of `restart` over the names in `ids`
      (script.js:170-185), in order: a return to base pushed on the plane's
      queue, and its record created. */
  function SetUp(q: map<Id, seq<Command>>, ids: seq<Id>, cap: int): (f: Fleet)
    requires forall x :: x in ids ==> x in q
    ensures f.queues.Keys == q.Keys
    decreases |ids|
  {
    if ids == [] then Fleet(q, map[])
    else
      var f := SetUp(q, ids[..|ids| - 1], cap);
      var id := ids[|ids| - 1];
      Fleet(f.queues[id := f.queues[id] + [Goto(0)]], f.planes[id := AtBase(cap)])
  }

  /** The non-display part of `restart` after a successful compile: the
      planes set up, in registration order. */
  function Reset(t: Table, sim: Settings): (w: World)
    requires Consistent(t)
  {
    var f := SetUp(t.queues, t.ids, sim.fuel);
    World(f.queues, t.ids, f.planes, sim)
  }

  /** Pushing a return to base on every queue. */
  function HomeQueues(queues: map<Id, seq<Command>>): (r: map<Id, seq<Command>>)
  {
    map id | id in queues :: queues[id] + [Goto(0)]
  }

  /** What the set-up loop has done after the names `ids`: exactly those
      planes exist, at base with `cap` fuel. */
  lemma {:induction false} SetUpPlanes(q: map<Id, seq<Command>>, ids: seq<Id>, cap: int)
    requires forall x :: x in ids ==> x in q
    ensures SetUp(q, ids, cap).planes == map x | x in ids :: AtBase(cap)
    decreases |ids|
  {
    if ids != [] {
      var pre := ids[..|ids| - 1];
      assert ids == pre + [ids[|ids| - 1]];
      SetUpPlanes(q, pre, cap);
    }
  }

  /** ... and, when no name repeats, exactly those queues have one more
      command, a return to base. */
  lemma {:induction false} SetUpQueues(q: map<Id, seq<Command>>, ids: seq<Id>, cap: int)
    requires (forall x :: x in ids ==> x in q) && Distinct(ids)
    ensures forall x :: x in q ==>
      SetUp(q, ids, cap).queues[x] == if x in ids then q[x] + [Goto(0)] else q[x]
    decreases |ids|
  {
    if ids != [] {
      var pre, id := ids[..|ids| - 1], ids[|ids| - 1];
      assert ids == pre + [id];
      assert id !in pre by {
        forall i | 0 <= i < |pre| ensures pre[i] != id {
          assert ids[i] == pre[i];
        }
      }
      assert Distinct(pre) by {
        forall i, j | 0 <= i < j < |pre| ensures pre[i] != pre[j] {
          assert ids[i] == pre[i] && ids[j] == pre[j];
        }
      }
      SetUpQueues(q, pre, cap);
    }
  }

  /** `restart` pushes exactly one `goto 0` on every queue ... */
  lemma ResetQueues(t: Table, sim: Settings)
    requires Consistent(t)
    ensures Reset(t, sim).queues == HomeQueues(t.queues)
  {
    SetUpQueues(t.queues, t.ids, sim.fuel);
  }

  /** ... and creates every plane at base with a full tank. */
  lemma ResetPlanes(t: Table, sim: Settings)
    requires Consistent(t)
    ensures Reset(t, sim).planes == map id | id in t.queues :: AtBase(sim.fuel)
  {
    SetUpPlanes(t.queues, t.ids, sim.fuel);
  }
}
