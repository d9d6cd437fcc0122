/** What the simulation guarantees: each command's effect stated against an
    independent description, the invariants every step keeps from `restart`
    on, and when a run stalls or finishes. */
module SimProperties {
  import opened Wrappers
  import opened Commands
  import opened Compiler
  import opened Simulation

  /** The number of moves between positions `a` and `b` on a circular track
      of `n` positions, going the shorter way. */
  function CircDist(a: int, b: int, n: int): int
  {
    var d := Abs(b - a);
    if d <= n - d then d else n - d
  }

  /** Wrapping leaves a position on the track alone and sends the two
      positions just off the track to the other end. */
  lemma WrapNear(x: int, n: int)
    requires n > 0 && -1 <= x <= n
    ensures Wrap(x, n) == if x == -1 then n - 1 else if x == n then 0 else x
  {
    WrapIsMod(x, n);
    if x == -1 {
      ModUnique(x, n, -1, n - 1);
    } else if x == n {
      ModUnique(x, n, 1, 0);
    } else {
      ModUnique(x, n, 0, x);
    }
  }

  /** A `goto` that moves takes the plane one position closer to its
      destination the shorter way round, at the cost of one fuel, and keeps
      it on the track. */
  lemma GotoMoves(w: World, id: Id)
    requires Ready(w, id) && w.queues[id][0].Goto?
    requires 0 <= w.planes[id].pos < w.sim.time
    requires w.planes[id].pos != Wrap(w.queues[id][0].dest, w.sim.time) && w.planes[id].fuel > 0
    ensures var e := ExecGoto(w, id);
      var n, dest, p, p' := w.sim.time, Wrap(w.queues[id][0].dest, w.sim.time), w.planes[id], e.w.planes[id];
      && e.Done? && !e.chain
      && 0 <= p'.pos < n
      && CircDist(p'.pos, dest, n) == CircDist(p.pos, dest, n) - 1
      && CircDist(p.pos, p'.pos, n) == 1
      && (2 * Abs(dest - p.pos) <= n ==> p'.pos == p.pos + Sign(dest - p.pos))
      && p'.fuel == p.fuel - 1
      && (e.w.queues[id] == if p'.pos == dest then w.queues[id][1..] else w.queues[id])
  {
    var n, dest, p := w.sim.time, Wrap(w.queues[id][0].dest, w.sim.time), w.planes[id].pos;
    var delta := dest - p;
    var x := if 2 * Abs(delta) <= n then p + Sign(delta) else p - Sign(delta);
    WrapNear(x, n);
  }

  /** A `goto` to where the plane is costs nothing, leaves the queue and lets
      the loop go on. */
  lemma GotoArrived(w: World, id: Id)
    requires Ready(w, id) && w.queues[id][0].Goto?
    requires w.planes[id].pos == Wrap(w.queues[id][0].dest, w.sim.time)
    ensures ExecGoto(w, id) == Done(w.(queues := w.queues[id := w.queues[id][1..]]), true)
  {
  }

  /** A plane that must move without fuel throws and changes nothing. */
  lemma GotoStranded(w: World, id: Id)
    requires Ready(w, id) && w.queues[id][0].Goto?
    requires w.planes[id].pos != Wrap(w.queues[id][0].dest, w.sim.time) && w.planes[id].fuel <= 0
    ensures ExecGoto(w, id) == Thrown(w, OutOfFuel(id))
  {
  }

  /** How many times `x` occurs in `s`. */
  function Count(s: seq<Id>, x: Id): (n: nat)
    ensures n <= |s|
    ensures n == 0 <==> x !in s
  {
    if s == [] then 0 else (if s[0] == x then 1 else 0) + Count(s[1..], x)
  }

  /** The index of the first recipient that is missing or not at `at`, or
      the number of recipients when there is none. */
  function FirstAway(planes: map<Id, Plane>, at: int, recv: seq<Id>): (i: nat)
    ensures i <= |recv|
    ensures forall j :: 0 <= j < i ==> recv[j] in planes && planes[recv[j]].pos == at
    ensures i < |recv| ==> recv[i] !in planes || planes[recv[i]].pos != at
  {
    if recv == [] || recv[0] !in planes || planes[recv[0]].pos != at then 0
    else 1 + FirstAway(planes, at, recv[1..])
  }

  lemma MulAdd(a: int, x: int, y: int)
    ensures a * (x + y) == a * x + a * y
  {
  }

  /** The credit loop stops at the first recipient that is missing or not
      at `at`, and reports it. */
  lemma {:induction false} CreditReports(planes: map<Id, Plane>, at: int, recv: seq<Id>, amount: int, giver: Id)
    ensures var i := FirstAway(planes, at, recv);
      Credit(planes, at, recv, amount, giver).1 ==
        if i == |recv| then None
        else if recv[i] !in planes then Some(NoSuchPlane(recv[i]))
        else Some(TooFarApart(giver, recv[i]))
    decreases |recv|
  {
    if recv != [] && recv[0] in planes && planes[recv[0]].pos == at {
      var y := recv[0];
      var planes' := planes[y := planes[y].(fuel := planes[y].fuel + amount)];
      CreditReports(planes', at, recv[1..], amount, giver);
      FirstAwaySamePositions(planes, planes', at, recv[1..]);
    }
  }

  /** Before that recipient, the loop gives `amount` to each plane once per
      time it is named ... */
  lemma {:induction false} CreditFuel(planes: map<Id, Plane>, at: int, recv: seq<Id>, amount: int, giver: Id, x: Id)
    requires x in planes
    ensures Credit(planes, at, recv, amount, giver).0[x].fuel ==
      planes[x].fuel + amount * Count(recv[..FirstAway(planes, at, recv)], x)
    decreases |recv|
  {
    if recv != [] && recv[0] in planes && planes[recv[0]].pos == at {
      var y := recv[0];
      var planes' := planes[y := planes[y].(fuel := planes[y].fuel + amount)];
      CreditFuel(planes', at, recv[1..], amount, giver, x);
      var i' := FirstAway(planes', at, recv[1..]);
      FirstAwaySamePositions(planes, planes', at, recv[1..]);
      CountPrefix(recv, i', x);
      MulAdd(amount, if y == x then 1 else 0, Count(recv[1..][..i'], x));
    } else {
      assert recv[..0] == [];
    }
  }

  /** Counting in a prefix of `recv` that keeps its first name. */
  lemma CountPrefix(recv: seq<Id>, i: nat, x: Id)
    requires i < |recv|
    ensures Count(recv[..1 + i], x) == (if recv[0] == x then 1 else 0) + Count(recv[1..][..i], x)
  {
    assert (recv[..1 + i])[1..] == recv[1..][..i];
  }

  /** ... and changes nothing but fuel. */
  lemma {:induction false} CreditKeepsRest(planes: map<Id, Plane>, at: int, recv: seq<Id>, amount: int, giver: Id, x: Id)
    requires x in planes
    ensures Credit(planes, at, recv, amount, giver).0[x].pos == planes[x].pos
    ensures Credit(planes, at, recv, amount, giver).0[x].color == planes[x].color
    decreases |recv|
  {
    if recv != [] && recv[0] in planes && planes[recv[0]].pos == at {
      var y := recv[0];
      CreditKeepsRest(planes[y := planes[y].(fuel := planes[y].fuel + amount)], at, recv[1..], amount, giver, x);
    }
  }

  lemma CreditAmounts(planes: map<Id, Plane>, at: int, recv: seq<Id>, amount: int, giver: Id, x: Id)
    requires x in planes
    ensures Credit(planes, at, recv, amount, giver).0[x] ==
      planes[x].(fuel := planes[x].fuel + amount * Count(recv[..FirstAway(planes, at, recv)], x))
  {
    CreditFuel(planes, at, recv, amount, giver, x);
    CreditKeepsRest(planes, at, recv, amount, giver, x);
  }

  /** `FirstAway` reads only the names and positions of the planes. */
  lemma {:induction false} FirstAwaySamePositions(planes: map<Id, Plane>, planes': map<Id, Plane>, at: int, recv: seq<Id>)
    requires planes'.Keys == planes.Keys
    requires forall x :: x in planes ==> planes'[x].pos == planes[x].pos
    ensures FirstAway(planes', at, recv) == FirstAway(planes, at, recv)
    decreases |recv|
  {
    if recv != [] {
      FirstAwaySamePositions(planes, planes', at, recv[1..]);
    }
  }

  /** A `give` that goes through takes `amount` per recipient from the giver
      and credits every plane `amount` per time it is named: fuel moves
      between planes and none is made or lost. */
  lemma GiveTransfers(w: World, id: Id)
    requires Ready(w, id) && w.queues[id][0].Give?
    requires ExecGive(w, id).Done?
    ensures var c, e := w.queues[id][0], ExecGive(w, id);
      && e.chain && e.w.queues == w.queues[id := w.queues[id][1..]]
      && e.w.planes.Keys == w.planes.Keys
      && forall x :: x in w.planes ==>
           e.w.planes[x] == w.planes[x].(fuel := w.planes[x].fuel
             - (if x == id then c.amount * |c.recv| else 0) + c.amount * Count(c.recv, x))
  {
    var c, p := w.queues[id][0], w.planes[id];
    var planes := w.planes[id := p.(fuel := p.fuel - c.amount * |c.recv|)];
    var r := Credit(planes, p.pos, c.recv, c.amount, id);
    assert ExecGive(w, id) == Done(Dequeue(w.(planes := r.0), id), true);
    CreditReports(planes, p.pos, c.recv, c.amount, id);
    assert FirstAway(planes, p.pos, c.recv) == |c.recv|;
    assert c.recv[..|c.recv|] == c.recv;
    forall x | x in w.planes
      ensures r.0[x] == w.planes[x].(fuel := w.planes[x].fuel
        - (if x == id then c.amount * |c.recv| else 0) + c.amount * Count(c.recv, x))
    {
      CreditAmounts(planes, p.pos, c.recv, c.amount, id, x);
    }
  }

  /** The fuel of the planes named in `xs`. */
  function FuelSum(planes: map<Id, Plane>, xs: seq<Id>): int
    requires forall x :: x in xs ==> x in planes
  {
    if xs == [] then 0 else planes[xs[0]].fuel + FuelSum(planes, xs[1..])
  }

  /** How many times the names in `xs` occur in `recv`, added up. */
  function CountSum(recv: seq<Id>, xs: seq<Id>): nat
  {
    if xs == [] then 0 else Count(recv, xs[0]) + CountSum(recv, xs[1..])
  }

  /** What a `give` by `id` that costs it `debit` and credits `amount` per
      listed recipient does to the fuel of plane `x`. */
  function Change(x: Id, id: Id, debit: int, amount: int, recv: seq<Id>): int
  {
    (if x == id then -debit else 0) + amount * Count(recv, x)
  }

  function ChangeSum(xs: seq<Id>, id: Id, debit: int, amount: int, recv: seq<Id>): int
  {
    if xs == [] then 0 else Change(xs[0], id, debit, amount, recv) + ChangeSum(xs[1..], id, debit, amount, recv)
  }

  /** The fuel of the planes after the change is the fuel before plus the
      changes. */
  lemma {:induction false} FuelSumShift(planes: map<Id, Plane>, planes': map<Id, Plane>, xs: seq<Id>, id: Id, debit: int, amount: int, recv: seq<Id>)
    requires forall x :: x in xs ==> x in planes && x in planes'
    requires forall x :: x in xs ==> planes'[x].fuel == planes[x].fuel + Change(x, id, debit, amount, recv)
    ensures FuelSum(planes', xs) == FuelSum(planes, xs) + ChangeSum(xs, id, debit, amount, recv)
    decreases |xs|
  {
    if xs != [] {
      FuelSumShift(planes, planes', xs[1..], id, debit, amount, recv);
    }
  }

  /** The changes add up to the debit once per time the giver is listed,
      and the credits once per time a recipient is. */
  lemma {:induction false} ChangeSumIs(xs: seq<Id>, id: Id, debit: int, amount: int, recv: seq<Id>)
    ensures ChangeSum(xs, id, debit, amount, recv) == amount * CountSum(recv, xs) - debit * Count(xs, id)
    decreases |xs|
  {
    if xs != [] {
      ChangeSumIs(xs[1..], id, debit, amount, recv);
      MulAdd(amount, Count(recv, xs[0]), CountSum(recv, xs[1..]));
      if xs[0] == id {
        MulAdd(debit, 1, Count(xs[1..], id));
      }
    }
  }

  /** Peeling the first recipient off `recv`. */
  lemma {:induction false} CountSumFirst(recv: seq<Id>, xs: seq<Id>)
    requires recv != []
    ensures CountSum(recv, xs) == Count(xs, recv[0]) + CountSum(recv[1..], xs)
    decreases |xs|
  {
    if xs != [] {
      CountSumFirst(recv, xs[1..]);
    }
  }

  /** A name listed once is counted once. */
  lemma {:induction false} CountOnce(xs: seq<Id>, x: Id)
    requires Distinct(xs) && x in xs
    ensures Count(xs, x) == 1
    decreases |xs|
  {
    if xs[0] != x {
      assert Distinct(xs[1..]) by {
        forall i, j | 0 <= i < j < |xs[1..]| ensures xs[1..][i] != xs[1..][j] {
          assert xs[1..][i] == xs[i + 1] && xs[1..][j] == xs[j + 1];
        }
      }
      CountOnce(xs[1..], x);
    } else {
      assert x !in xs[1..] by {
        forall i | 0 <= i < |xs[1..]| ensures xs[1..][i] != x {
          assert xs[1..][i] == xs[i + 1];
        }
      }
    }
  }

  /** Every recipient in a list without repeats is counted once. */
  lemma {:induction false} CountsAddUp(recv: seq<Id>, xs: seq<Id>)
    requires Distinct(xs) && forall r :: r in recv ==> r in xs
    ensures CountSum(recv, xs) == |recv|
    decreases |recv|
  {
    if recv == [] {
      CountSumEmpty(xs);
    } else {
      CountSumFirst(recv, xs);
      CountOnce(xs, recv[0]);
      CountsAddUp(recv[1..], xs);
    }
  }

  lemma {:induction false} CountSumEmpty(xs: seq<Id>)
    ensures CountSum([], xs) == 0
    decreases |xs|
  {
    if xs != [] {
      CountSumEmpty(xs[1..]);
    }
  }

  /** Moving `amount` to each of `recv` from `id`, all of them among `xs`,
      leaves the fuel of the planes in `xs` as it was. */
  lemma TransferConserves(planes: map<Id, Plane>, planes': map<Id, Plane>, xs: seq<Id>, id: Id, amount: int, recv: seq<Id>)
    requires Distinct(xs) && id in xs && forall r :: r in recv ==> r in xs
    requires forall x :: x in xs ==> x in planes && x in planes'
    requires forall x :: x in xs ==> planes'[x].fuel == planes[x].fuel + Change(x, id, amount * |recv|, amount, recv)
    ensures FuelSum(planes', xs) == FuelSum(planes, xs)
  {
    FuelSumShift(planes, planes', xs, id, amount * |recv|, amount, recv);
    ChangeSumIs(xs, id, amount * |recv|, amount, recv);
    CountOnce(xs, id);
    CountsAddUp(recv, xs);
  }

  /** In a well-formed state a `give` that goes through moves fuel between
      planes without making or losing any. */
  lemma GiveConserves(w: World, id: Id)
    requires WellFormed(w) && Ready(w, id) && w.queues[id][0].Give?
    requires ExecGive(w, id).Done?
    ensures ExecGive(w, id).w.planes.Keys == w.planes.Keys
    ensures FuelSum(ExecGive(w, id).w.planes, w.ids) == FuelSum(w.planes, w.ids)
  {
    var c, planes' := w.queues[id][0], ExecGive(w, id).w.planes;
    GiveTransfers(w, id);
    assert c in w.queues[id] && RecipientsIn(c, w.queues.Keys);
    forall x | x in w.ids
      ensures planes'[x].fuel == w.planes[x].fuel + Change(x, id, c.amount * |c.recv|, c.amount, c.recv)
    {
    }
    TransferConserves(w.planes, planes', w.ids, id, c.amount, c.recv);
  }

  /** A giver short of fuel throws and changes nothing. */
  lemma GiveShort(w: World, id: Id)
    requires Ready(w, id) && w.queues[id][0].Give?
    requires w.planes[id].fuel < w.queues[id][0].amount * |w.queues[id][0].recv|
    ensures ExecGive(w, id) == Thrown(w, CannotGive(id, w.queues[id][0].amount, |w.queues[id][0].recv|, w.planes[id].fuel))
  {
  }

  /** A `give` to a recipient that is not beside the giver throws, keeping
      the deduction and the credits to the recipients before it. */
  lemma GiveStopped(w: World, id: Id)
    requires Ready(w, id) && w.queues[id][0].Give?
    requires ExecGive(w, id).Thrown?
    requires w.planes[id].fuel >= w.queues[id][0].amount * |w.queues[id][0].recv|
    ensures var c, e, p := w.queues[id][0], ExecGive(w, id), w.planes[id];
      var i := FirstAway(w.planes, p.pos, c.recv);
      && i < |c.recv|
      && e.violation == (if c.recv[i] in w.planes then TooFarApart(id, c.recv[i]) else NoSuchPlane(c.recv[i]))
      && e.w.queues == w.queues
      && forall x :: x in w.planes ==>
           e.w.planes[x] == w.planes[x].(fuel := w.planes[x].fuel
             - (if x == id then c.amount * |c.recv| else 0) + c.amount * Count(c.recv[..i], x))
  {
    var c, p := w.queues[id][0], w.planes[id];
    var planes := w.planes[id := p.(fuel := p.fuel - c.amount * |c.recv|)];
    CreditReports(planes, p.pos, c.recv, c.amount, id);
    FirstAwaySamePositions(w.planes, planes, p.pos, c.recv);
    forall x | x in w.planes
      ensures ExecGive(w, id).w.planes[x] == w.planes[x].(fuel := w.planes[x].fuel
        - (if x == id then c.amount * |c.recv| else 0) + c.amount * Count(c.recv[..FirstAway(w.planes, p.pos, c.recv)], x))
    {
      CreditAmounts(planes, p.pos, c.recv, c.amount, id, x);
    }
  }

  /** Credits change fuel only. */
  lemma CreditKeepsPlaces(planes: map<Id, Plane>, at: int, recv: seq<Id>, amount: int, giver: Id)
    ensures var r := Credit(planes, at, recv, amount, giver).0;
      forall x :: x in planes ==> r[x].pos == planes[x].pos && r[x].color == planes[x].color
  {
    forall x | x in planes
      ensures Credit(planes, at, recv, amount, giver).0[x].pos == planes[x].pos
      ensures Credit(planes, at, recv, amount, giver).0[x].color == planes[x].color
    {
      CreditAmounts(planes, at, recv, amount, giver, x);
    }
  }

  function Last(q: seq<Command>): Command
    requires q != []
  {
    q[|q| - 1]
  }

  /** Every plane is on the track. */
  ghost predicate OnTrack(w: World)
  {
    forall x :: x in w.planes ==> 0 <= w.planes[x].pos < w.sim.time
  }

  /** Every plane with commands left will end with a return to base, and
      every plane without is at base. */
  ghost predicate HomeBound(w: World)
  {
    forall x :: x in w.queues && x in w.planes ==>
      if w.queues[x] == [] then w.planes[x].pos == 0 else Last(w.queues[x]) == Goto(0)
  }

  ghost predicate Sound(w: World)
  {
    OnTrack(w) && HomeBound(w)
  }

  /** Removing the front command keeps a plane home-bound: the last command
      is a return to base, so the queue only runs dry at base. */
  lemma DequeueSound(w: World, id: Id)
    requires Sound(w) && Ready(w, id)
    requires w.queues[id][1..] == [] ==> w.planes[id].pos == 0
    ensures Sound(Dequeue(w, id))
  {
    var q := w.queues[id];
    if q[1..] != [] {
      assert Last(q[1..]) == Last(q);
    }
  }

  /** A sole `goto` left on a home-bound queue is the return to base. */
  lemma LastGoto(w: World, id: Id)
    requires HomeBound(w) && Ready(w, id) && w.queues[id][0].Goto? && |w.queues[id]| == 1
    ensures Wrap(w.queues[id][0].dest, w.sim.time) == 0
  {
    WrapNear(0, w.sim.time);
  }

  lemma GotoSound(w: World, id: Id)
    requires Sound(w) && Ready(w, id) && w.queues[id][0].Goto?
    ensures Sound(ExecGoto(w, id).w)
  {
    var n, p := w.sim.time, w.planes[id];
    var dest := Wrap(w.queues[id][0].dest, n);
    if |w.queues[id]| == 1 {
      LastGoto(w, id);
    }
    if p.pos == dest {
      DequeueSound(w, id);
    } else if p.fuel > 0 {
      var delta := dest - p.pos;
      var pos := Wrap(if 2 * Abs(delta) <= n then p.pos + Sign(delta) else p.pos - Sign(delta), n);
      var w1 := w.(planes := w.planes[id := p.(pos := pos, fuel := p.fuel - 1)]);
      assert ExecGoto(w, id) == Done(if pos == dest then Dequeue(w1, id) else w1, false);
      assert Sound(w1);
      if pos == dest {
        DequeueSound(w1, id);
      }
    }
  }

  lemma GiveSound(w: World, id: Id)
    requires Sound(w) && Ready(w, id) && w.queues[id][0].Give?
    ensures Sound(ExecGive(w, id).w)
  {
    var c, p := w.queues[id][0], w.planes[id];
    var planes := w.planes[id := p.(fuel := p.fuel - c.amount * |c.recv|)];
    CreditKeepsPlaces(planes, p.pos, c.recv, c.amount, id);
    var w1 := w.(planes := Credit(planes, p.pos, c.recv, c.amount, id).0);
    assert Sound(w1);
    DequeueSound(w1, id);
  }

  lemma WaitSound(w: World, id: Id)
    requires Sound(w) && Ready(w, id) && w.queues[id][0].Wait?
    ensures Sound(ExecWait(w, id).w)
  {
    var t, q := w.queues[id][0].time, w.queues[id];
    if t >= 0 {
      var q' := [Wait(t - 1)] + q[1..];
      assert Last(q') == Last(q);
    } else {
      DequeueSound(w, id);
    }
  }

  lemma ViewSound(w: World, id: Id)
    requires Sound(w) && Ready(w, id) && w.queues[id][0].View?
    ensures Sound(ExecView(w, id).w)
  {
    DequeueSound(w, id);
  }

  /** No `give` hands out a negative amount. */
  ghost predicate NonNegativeGives(q: map<Id, seq<Command>>)
  {
    forall x, c :: x in q && c in q[x] && c.Give? ==> c.amount >= 0
  }

  /** No plane has negative fuel, and no `give` can take a plane below
      zero. */
  ghost predicate FuelSound(w: World)
  {
    && NonNegativeGives(w.queues)
    && forall x :: x in w.planes ==> w.planes[x].fuel >= 0
  }

  /** The violation, if any, is not a missing plane. */
  predicate Found(v: Option<Violation>)
  {
    !(v.Some? && v.value.NoSuchPlane?)
  }

  function ThrownBy(e: Effect): Option<Violation>
  {
    if e.Thrown? then Some(e.violation) else None
  }

  /** Going from `w` to `w'` keeps each invariant that held in `w`, and a
      well-formed `w` throws no missing-plane error on the way. */
  ghost predicate Preserved(w: World, w': World, v: Option<Violation>)
  {
    && (Sound(w) ==> Sound(w'))
    && (FuelSound(w) ==> FuelSound(w'))
    && (WellFormed(w) ==> WellFormed(w') && Found(v))
  }

  lemma PreservedTrans(w: World, w1: World, w2: World, v: Option<Violation>)
    requires Preserved(w, w1, None) && Preserved(w1, w2, v)
    ensures Preserved(w, w2, v)
  {
  }

  /** A step that keeps the shape and adds no `give` keeps the queues'
      well-formedness and their non-negative `give`s. */
  lemma NoNewGivesKeep(w: World, w': World)
    requires SameShape(w, w') && NoNewGives(w.queues, w'.queues)
    ensures WellFormed(w) ==> WellFormed(w')
    ensures NonNegativeGives(w.queues) ==> NonNegativeGives(w'.queues)
  {
    if WellFormed(w) {
      forall x, c | x in w'.queues && c in w'.queues[x]
        ensures RecipientsIn(c, w'.queues.Keys)
      {
        if c.Give? {
          assert c in w.queues[x];
        }
      }
    }
  }

  /** `Keeps` for plane `id` means no new `give`. */
  lemma KeepsNoNewGives(w: World, id: Id, e: Effect)
    requires id in w.queues && Keeps(w, id, e)
    ensures NoNewGives(w.queues, e.w.queues)
  {
  }

  /** The credit loop over recipients that all exist never misses one. */
  lemma CreditFinds(planes: map<Id, Plane>, at: int, recv: seq<Id>, amount: int, giver: Id)
    requires forall x :: x in recv ==> x in planes
    ensures Found(Credit(planes, at, recv, amount, giver).1)
  {
    CreditReports(planes, at, recv, amount, giver);
  }

  /** Credits of a non-negative amount never lower anyone's fuel. */
  lemma CreditNoLoss(planes: map<Id, Plane>, at: int, recv: seq<Id>, amount: int, giver: Id)
    requires amount >= 0
    ensures var r := Credit(planes, at, recv, amount, giver).0;
      forall x :: x in planes ==> r[x].fuel >= planes[x].fuel
  {
    forall x | x in planes
      ensures Credit(planes, at, recv, amount, giver).0[x].fuel >= planes[x].fuel
    {
      CreditFuel(planes, at, recv, amount, giver, x);
      MulNonNegative(amount, Count(recv[..FirstAway(planes, at, recv)], x));
    }
  }

  lemma MulNonNegative(a: int, b: int)
    requires a >= 0 && b >= 0
    ensures a * b >= 0
  {
  }

  /** A `give` that can pay never lowers a recipient's fuel; a `goto` or
      `wait` that costs fuel runs only with fuel left. */
  lemma ExecFuelled(w: World, id: Id)
    requires Ready(w, id) && FuelSound(w)
    ensures forall x :: x in Exec(w, id).w.planes ==> Exec(w, id).w.planes[x].fuel >= 0
  {
    var c := w.queues[id][0];
    if c.Give? {
      assert c in w.queues[id];
      GiveFuelled(w, id);
    }
  }

  lemma GiveFuelled(w: World, id: Id)
    requires Ready(w, id) && w.queues[id][0].Give? && w.queues[id][0].amount >= 0
    requires forall x :: x in w.planes ==> w.planes[x].fuel >= 0
    ensures forall x :: x in ExecGive(w, id).w.planes ==> ExecGive(w, id).w.planes[x].fuel >= 0
  {
    var c, p := w.queues[id][0], w.planes[id];
    var planes := w.planes[id := p.(fuel := p.fuel - c.amount * |c.recv|)];
    CreditNoLoss(planes, p.pos, c.recv, c.amount, id);
  }

  lemma ExecFinds(w: World, id: Id)
    requires Ready(w, id) && WellFormed(w)
    ensures Found(ThrownBy(Exec(w, id)))
  {
    var c, p := w.queues[id][0], w.planes[id];
    if c.Give? {
      assert c in w.queues[id] && RecipientsIn(c, w.queues.Keys);
      var planes := w.planes[id := p.(fuel := p.fuel - c.amount * |c.recv|)];
      CreditFinds(planes, p.pos, c.recv, c.amount, id);
    }
  }

  lemma ExecSound(w: World, id: Id)
    requires Ready(w, id) && Sound(w)
    ensures Sound(Exec(w, id).w)
  {
    match w.queues[id][0]
    case Goto(_) => GotoSound(w, id);
    case Give(_, _) => GiveSound(w, id);
    case Wait(_) => WaitSound(w, id);
    case View(_) => ViewSound(w, id);
  }

  /** Every command keeps the invariants. */
  lemma ExecPreserved(w: World, id: Id)
    requires Ready(w, id)
    ensures Preserved(w, Exec(w, id).w, ThrownBy(Exec(w, id)))
  {
    var e := Exec(w, id);
    ExecKeeps(w, id);
    KeepsNoNewGives(w, id, e);
    NoNewGivesKeep(w, e.w);
    if Sound(w) {
      ExecSound(w, id);
    }
    if FuelSound(w) {
      ExecFuelled(w, id);
    }
    if WellFormed(w) {
      ExecFinds(w, id);
    }
  }

  /** So does the refuel at base. */
  lemma RefuelPreserved(w: World, id: Id)
    requires id in w.planes
    ensures Preserved(w, Refuel(w, id), None)
  {
  }

  /** Serving one plane keeps the invariants ... */
  lemma {:induction false} ServePreserved(w: World, id: Id, k: Kind)
    requires w.sim.time > 0 && id in w.queues
    ensures var r := Serve(w, id, k); Preserved(w, r.w, r.thrown)
    decreases |w.queues[id]|, 1
  {
    if w.queues[id] != [] && id in w.planes {
      var w1 := Refuel(w, id);
      RefuelPreserved(w, id);
      if KindOf(w1.queues[id][0]) == k {
        ActPreserved(w1, id, k);
        PreservedTrans(w, w1, Act(w1, id, k).w, Act(w1, id, k).thrown);
      }
    }
  }

  lemma {:induction false} ActPreserved(w: World, id: Id, k: Kind)
    requires Ready(w, id)
    ensures var r := Act(w, id, k); Preserved(w, r.w, r.thrown)
    decreases |w.queues[id]|, 0
  {
    ExecKeeps(w, id);
    ExecPreserved(w, id);
    var e := Exec(w, id);
    if e.Done? && e.chain {
      ServePreserved(e.w, id, k);
      PreservedTrans(w, e.w, Serve(e.w, id, k).w, Serve(e.w, id, k).thrown);
    }
  }

  /** ... and so does serving every plane in turn ... */
  lemma {:induction false} ServeAllPreserved(w: World, ids: seq<Id>, k: Kind)
    requires w.sim.time > 0 && forall x :: x in ids ==> x in w.queues
    ensures var r := ServeAll(w, ids, k); Preserved(w, r.w, r.thrown)
    decreases |ids|
  {
    if ids != [] {
      var r := Serve(w, ids[0], k);
      ServePreserved(w, ids[0], k);
      if r.thrown.None? {
        ServeAllPreserved(r.w, ids[1..], k);
      }
    }
  }

  function Failure(r: StepResult): Option<Violation>
  {
    if r.Failed? then Some(r.violation) else None
  }

  lemma PhasePreserved(w: World, k: Kind)
    requires Runnable(w)
    ensures var r := Phase(w, k); Preserved(w, r.w, r.thrown)
  {
    ServeAllPreserved(w, w.ids, k);
  }

  /** ... and so does a whole step, whichever phase throws. */
  lemma StepPreserved(w: World)
    requires Runnable(w)
    ensures var r := Step(w); Preserved(w, r.w, Failure(r.result))
  {
    var g := Phase(w, GotoKind);
    PhasePreserved(w, GotoKind);
    if g.thrown.Some? {
      assert Step(w) == Stepped(g.w, Failed(g.thrown.value));
    } else {
      var f := Phase(g.w, GiveKind);
      PhasePreserved(g.w, GiveKind);
      PreservedTrans(w, g.w, f.w, f.thrown);
      if f.thrown.Some? {
        assert Step(w) == Stepped(f.w, Failed(f.thrown.value));
      } else {
        var t := Phase(f.w, WaitKind);
        PhasePreserved(f.w, WaitKind);
        PreservedTrans(w, f.w, t.w, t.thrown);
        if t.thrown.Some? {
          assert Step(w) == Stepped(t.w, Failed(t.thrown.value));
        } else {
          var v := Phase(t.w, ViewKind);
          PhasePreserved(t.w, ViewKind);
          PreservedTrans(w, t.w, v.w, v.thrown);
          assert Step(w).w == v.w && Failure(Step(w).result) == v.thrown;
        }
      }
    }
  }

  /** Well-formed states can be stepped. */
  lemma WellFormedRunnable(w: World)
    requires WellFormed(w)
    ensures Runnable(w)
  {
  }

  /** Every step keeps a well-formed state well-formed and never reads a
      missing plane from it. */
  lemma StepKeepsWellFormed(w: World)
    requires WellFormed(w)
    ensures WellFormed(Step(w).w) && Found(Failure(Step(w).result))
  {
    WellFormedRunnable(w);
    StepPreserved(w);
  }

  /** When every queue is empty no phase does anything ... */
  lemma {:induction false} ServeAllIdle(w: World, ids: seq<Id>, k: Kind)
    requires w.sim.time > 0 && (forall x :: x in ids ==> x in w.queues) && AllEmpty(w.queues)
    ensures ServeAll(w, ids, k) == Served(w, false, None)
    decreases |ids|
  {
    if ids != [] {
      ServeAllIdle(w, ids[1..], k);
    }
  }

  /** ... so the step stalls and changes nothing. */
  lemma StepIdle(w: World)
    requires Runnable(w) && AllEmpty(w.queues)
    ensures Step(w) == Stepped(w, Stalled)
  {
    ServeAllIdle(w, w.ids, GotoKind);
    ServeAllIdle(w, w.ids, GiveKind);
    ServeAllIdle(w, w.ids, WaitKind);
    ServeAllIdle(w, w.ids, ViewKind);
  }

  /** A plane whose front command is of kind `k` acts in the phase for `k`,
      unless that phase throws first. */
  lemma {:induction false} ServeAllActs(w: World, ids: seq<Id>, k: Kind, x: Id)
    requires w.sim.time > 0 && forall y :: y in ids ==> y in w.queues
    requires x in ids && w.queues[x] != [] && KindOf(w.queues[x][0]) == k
    ensures ServeAll(w, ids, k).acted || ServeAll(w, ids, k).thrown.Some?
    decreases |ids|
  {
    var r := Serve(w, ids[0], k);
    if ids[0] == x {
      if x in w.planes {
        var w1 := Refuel(w, x);
        assert r == Act(w1, x, k);
        ActActs(w1, x, k);
      }
    } else if r.thrown.None? {
      assert x in ids[1..];
      ServeAllActs(r.w, ids[1..], k, x);
    }
  }

  lemma ActActs(w: World, id: Id, k: Kind)
    requires Ready(w, id)
    ensures Act(w, id, k).acted
  {
  }

  /** The phase for another kind leaves that plane's queue as it was. */
  lemma {:induction false} ServeAllPasses(w: World, ids: seq<Id>, k: Kind, x: Id)
    requires w.sim.time > 0 && forall y :: y in ids ==> y in w.queues
    requires x in w.queues && w.queues[x] != [] && KindOf(w.queues[x][0]) != k
    ensures ServeAll(w, ids, k).w.queues[x] == w.queues[x]
    decreases |ids|
  {
    if ids != [] {
      var r := Serve(w, ids[0], k);
      if r.thrown.None? {
        ServeAllPasses(r.w, ids[1..], k, x);
      }
    }
  }

  /** The phase for kind `k` as seen by plane `x`, whose front command is of
      kind `kx`: it acts in its own phase and is passed over in the others. */
  lemma PhaseSees(w: World, k: Kind, x: Id, kx: Kind)
    requires Runnable(w) && x in w.ids && w.queues[x] != [] && KindOf(w.queues[x][0]) == kx
    ensures var r := Phase(w, k);
      (k == kx ==> r.acted || r.thrown.Some?) && (k != kx ==> r.w.queues[x] == w.queues[x])
  {
    if k == kx {
      ServeAllActs(w, w.ids, k, x);
    } else {
      ServeAllPasses(w, w.ids, k, x);
    }
  }

  /** What the four phases must all do for a step to stall. */
  lemma StallsWhen(w: World)
    requires Runnable(w)
    ensures var g := Phase(w, GotoKind); var f := Phase(g.w, GiveKind);
      var t := Phase(f.w, WaitKind); var v := Phase(t.w, ViewKind);
      Step(w).result.Stalled? <==>
        && g.thrown.None? && f.thrown.None? && t.thrown.None? && v.thrown.None?
        && !(g.acted || f.acted || t.acted || v.acted)
  {
  }

  /** A step stalls exactly when every queue is empty: a plane with a
      command left either acts in the phase for that command or a phase
      throws before it. */
  lemma StepStalls(w: World)
    requires Runnable(w) && forall x :: x in w.queues ==> x in w.ids
    ensures Step(w).result.Stalled? <==> AllEmpty(w.queues)
  {
    if AllEmpty(w.queues) {
      StepIdle(w);
    } else {
      var x :| x in w.queues && w.queues[x] != [];
      var kx := KindOf(w.queues[x][0]);
      StallsWhen(w);
      var g := Phase(w, GotoKind);
      var f := Phase(g.w, GiveKind);
      var t := Phase(f.w, WaitKind);
      PhaseSees(w, GotoKind, x, kx);
      if kx != GotoKind {
        PhaseSees(g.w, GiveKind, x, kx);
        if kx != GiveKind {
          PhaseSees(f.w, WaitKind, x, kx);
          if kx != WaitKind {
            PhaseSees(t.w, ViewKind, x, kx);
          }
        }
      }
    }
  }

  /** A step that reports every queue empty leaves every plane at base. */
  lemma FinishedAtBase(w: World)
    requires WellFormed(w) && Sound(w)
    ensures Step(w).result == Progressed(true) ==> forall x :: x in Step(w).w.planes ==> Step(w).w.planes[x].pos == 0
  {
    WellFormedRunnable(w);
    StepPreserved(w);
    var r := Step(w);
    if r.result == Progressed(true) {
      assert AllEmpty(r.w.queues) by {
        StepConcludes(w);
      }
    }
  }

  /** A step that goes through reports whether the queues are now empty. */
  lemma StepConcludes(w: World)
    requires Runnable(w)
    ensures Step(w).result.Progressed? ==> Step(w).result.finished == AllEmpty(Step(w).w.queues)
  {
  }

  /** `n` passes of the wait phase over a plane at base whose front command
      is `wait` with a counter `t` of at least `n - 1`. */
  function WaitRepeat(w: World, id: Id, n: nat): (r: World)
    requires Ready(w, id) && w.queues[id][0].Wait? && w.planes[id].pos == 0
    requires n <= w.queues[id][0].time + 1
    ensures r == w.(queues := w.queues[id := [Wait(w.queues[id][0].time - n)] + w.queues[id][1..]])
    decreases n
  {
    if n == 0 then
      assert [Wait(w.queues[id][0].time)] + w.queues[id][1..] == w.queues[id];
      w
    else
      var r := WaitRepeat(w, id, n - 1);
      assert r.queues[id][1..] == w.queues[id][1..];
      ExecWait(r, id).w
  }

  /** At base `wait t` holds its plane for `t + 1` passes, each ending the
      plane's turn, and the pass after that removes it and lets the loop go
      on. */
  lemma WaitHolds(w: World, id: Id, n: nat)
    requires Ready(w, id) && w.queues[id][0].Wait? && w.planes[id].pos == 0
    requires n <= w.queues[id][0].time + 1
    ensures var r := WaitRepeat(w, id, n);
      ExecWait(r, id) == if n <= w.queues[id][0].time then Done(WaitRepeat(w, id, n + 1), false)
                         else Done(w.(queues := w.queues[id := w.queues[id][1..]]), true)
  {
    var r := WaitRepeat(w, id, n);
    assert r.queues[id][1..] == w.queues[id][1..];
  }

  /** Off base each pass of a `wait` that holds costs one fuel, and without
      fuel it throws with the counter already lowered. */
  lemma WaitOffBase(w: World, id: Id)
    requires Ready(w, id) && w.queues[id][0].Wait? && w.queues[id][0].time >= 0 && w.planes[id].pos != 0
    ensures var t, p, e := w.queues[id][0].time, w.planes[id], ExecWait(w, id);
      && e.w.queues[id] == [Wait(t - 1)] + w.queues[id][1..]
      && (p.fuel > 0 ==> e.Done? && !e.chain && e.w.planes == w.planes[id := p.(fuel := p.fuel - 1)])
      && (p.fuel <= 0 ==> e == Thrown(e.w, CannotWait(id)) && e.w.planes == w.planes)
  {
  }

  /** A `wait` whose counter is spent is removed, wherever the plane is,
      and the loop goes on. */
  lemma WaitSpent(w: World, id: Id)
    requires Ready(w, id) && w.queues[id][0].Wait? && w.queues[id][0].time < 0
    ensures ExecWait(w, id) == Done(w.(queues := w.queues[id := w.queues[id][1..]]), true)
  {
  }

  /** A plane's turn in the view phase runs one `view` only, even when the
      next command is another: it sets the colour and ends the turn. */
  lemma ServeView(w: World, id: Id)
    requires Ready(w, id) && w.queues[id][0].View?
    ensures var w1 := Refuel(w, id);
      Serve(w, id, ViewKind) ==
        Served(w1.(queues := w1.queues[id := w1.queues[id][1..]],
                   planes := w1.planes[id := w1.planes[id].(color := Some(w.queues[id][0].color))]),
               true, None)
  {
  }

  /** A plane's turn with an empty queue does nothing (not even refuel);
      otherwise it starts by filling the tank to `sim.fuel` at base, and
      leaving it as it is elsewhere, before the front command is looked at;
      so what happens on the turn of a plane at base does not depend on the
      fuel it had. */
  lemma ServeRefuels(w: World, id: Id, k: Kind, f: int)
    requires w.sim.time > 0 && id in w.queues && id in w.planes
    ensures w.queues[id] == [] ==> Serve(w, id, k) == Served(w, false, None)
    ensures w.queues[id] != [] && w.planes[id].pos == 0 ==>
      var w1 := w.(planes := w.planes[id := w.planes[id].(fuel := w.sim.fuel)]);
      Serve(w, id, k) == if KindOf(w.queues[id][0]) != k then Served(w1, false, None) else Act(w1, id, k)
    ensures w.queues[id] != [] && w.planes[id].pos != 0 ==>
      Serve(w, id, k) == if KindOf(w.queues[id][0]) != k then Served(w, false, None) else Act(w, id, k)
    ensures w.queues[id] != [] && w.planes[id].pos == 0 ==>
      Serve(w, id, k) == Serve(w.(planes := w.planes[id := w.planes[id].(fuel := f)]), id, k)
  {
    var w' := w.(planes := w.planes[id := w.planes[id].(fuel := f)]);
    if w.queues[id] != [] && w.planes[id].pos == 0 {
      assert Refuel(w', id) == Refuel(w, id);
    }
  }

  /** The state `restart` sets up from a compiled program is well-formed and
      every plane is on the track at base, bound home; its fuel is sound
      when no `give` hands out a negative amount. */
  lemma ResetEstablishes(t: Table, sim: Settings)
    requires Consistent(t) && RecipientsKnown(t.queues) && sim.time > 0 && sim.fuel > 0
    ensures WellFormed(Reset(t, sim)) && Sound(Reset(t, sim))
    ensures NonNegativeGives(t.queues) ==> FuelSound(Reset(t, sim))
  {
    var w := Reset(t, sim);
    ResetQueues(t, sim);
    ResetPlanes(t, sim);
    forall x, c | x in w.queues && c in w.queues[x]
      ensures c in t.queues[x] || c == Goto(0)
    {
      assert w.queues[x] == t.queues[x] + [Goto(0)];
    }
    forall x | x in w.queues
      ensures w.queues[x] != [] && Last(w.queues[x]) == Goto(0)
    {
      assert w.queues[x] == t.queues[x] + [Goto(0)];
    }
  }

  /** A successful `restart` starts the run in such a state. */
  lemma RestartEstablishes(text: string, prior: Settings)
    requires Compile(text, prior).error.None?
    ensures var c := Compile(text, prior);
      WellFormed(Reset(c.table, c.settings)) && Sound(Reset(c.table, c.settings))
  {
    var c := Compile(text, prior);
    ResetEstablishes(c.table, c.settings);
  }
}
