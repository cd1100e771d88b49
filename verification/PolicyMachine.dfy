/** The loop of get_wallet_internal_script_hash in src/handler/lib/policy.c: a stack of nodes, each with
    the step it has reached and the VERIFY flag, that emits opcodes until the stack is empty. */
module PolicyMachine {
  import opened Wrappers
  import opened BitcoinScript
  import opened Miniscript
  import opened PolicyEmitter

  datatype Frame = Frame(node: Node, step: nat, v: bool)

  function Depth(n: Node): (d: nat)
    ensures d >= 1
    decreases n, 1
  {
    match n
    case Atom(_) => 1
    case Wrap(_, x) => 1 + Depth(x)
    case Binary(_, x, y) => 1 + Max(Depth(x), Depth(y))
    case AndOr(x, y, z) => 1 + Max(Depth(x), Max(Depth(y), Depth(z)))
    case Thresh(_, xs) => 1 + MaxDepth(xs)
  }

  function Max(a: nat, b: nat): nat {
    if a < b then b else a
  }

  function MaxDepth(xs: seq<Node>): (d: nat)
    ensures forall i :: 0 <= i < |xs| ==> Depth(xs[i]) <= d
    decreases xs, 0
  {
    if xs == [] then 0 else Max(MaxDepth(xs[..|xs| - 1]), Depth(xs[|xs| - 1]))
  }

  // ---------------------------------------------------------------- the first push past the places

  function Or(a: Option<bool>, b: Option<bool>): Option<bool> {
    if a.Some? then a else b
  }

  /** With so many places for a node and the nodes below it, the first push that finds no place, in the
      order in which children are pushed: whether a thresh() makes it. None if all find a place. */
  function FirstPast(env: Env, n: Node, places: nat): Option<bool>
    decreases n, 3
  {
    if n.Thresh? then PastThresh(env, n, 0, places) else PastFrom(env, n, Commands(env, n), places)
  }

  function PastFrom(env: Env, n: Node, cs: seq<Command>, places: nat): Option<bool>
    decreases n, 2, |cs|
  {
    if cs == [] then None
    else if cs[0].Emit? || cs[0].EmitV? then PastFrom(env, n, cs[1..], places)
    else Or(PastChild(env, n, cs[0].i, places), PastFrom(env, n, cs[1..], places))
  }

  function PastChild(env: Env, n: Node, i: nat, places: nat): Option<bool>
    decreases n, 0
  {
    if places <= 1 then Some(n.Thresh?)
    else
      match n
      case Atom(_) => None
      case Wrap(_, x) => FirstPast(env, x, places - 1)
      case Binary(_, x, y) => if i == 0 then FirstPast(env, x, places - 1) else FirstPast(env, y, places - 1)
      case AndOr(x, y, z) =>
        if i == 0 then FirstPast(env, x, places - 1)
        else if i == 1 then FirstPast(env, y, places - 1) else FirstPast(env, z, places - 1)
      case Thresh(_, xs) => if i < |xs| then FirstPast(env, xs[i], places - 1) else None
  }

  function PastThresh(env: Env, n: Node, step: nat, places: nat): Option<bool>
    requires n.Thresh?
    decreases n, 2, if step < |n.xs| then |n.xs| - step else 0
  {
    if step < |n.xs| then Or(PastChild(env, n, step, places), PastThresh(env, n, step + 1, places)) else None
  }

  /** Every child of a node has its turn. */
  predicate Visits(cs: seq<Command>, i: nat) {
    exists k :: 0 <= k < |cs| && !cs[k].Emit? && !cs[k].EmitV? && cs[k].i == i
  }

  lemma VisitsAt(cs: seq<Command>, k: nat)
    requires k < |cs| && !cs[k].Emit? && !cs[k].EmitV?
    ensures Visits(cs, cs[k].i)
  {
  }

  lemma ChildrenVisited(env: Env, n: Node, i: nat)
    requires !n.Thresh? && i < |Children(n)|
    ensures Visits(Commands(env, n), i)
  {
    var cs := Commands(env, n);
    match n
    case Wrap(w, _) =>
      VisitsAt(cs, match w
                   case WrapA => 1
                   case WrapS => 1
                   case WrapD => 2
                   case WrapJ => 3
                   case WrapL => 3
                   case WrapU => 1
                   case _ => 0);
    case Binary(op, _, _) =>
      VisitsAt(cs, if i == 0 then (if op == OrI then 1 else 0)
                   else match op case AndN => 4 case OrC => 2 case OrD => 3 case OrI => 3 case _ => 1);
    case AndOr(_, _, _) =>
      VisitsAt(cs, if i == 0 then 0 else if i == 1 then 4 else 2);
  }

  predicate PlaceFor(env: Env, n: Node, i: nat, places: nat) {
    PastChild(env, n, i, places).None?
  }

  lemma VisitsRest(cs: seq<Command>, i: nat)
    requires cs != []
    ensures Visits(cs, i) <==> Visits(cs[1..], i) || (!cs[0].Emit? && !cs[0].EmitV? && cs[0].i == i)
  {
    var rest := cs[1..];
    if k :| 0 <= k < |rest| && !rest[k].Emit? && !rest[k].EmitV? && rest[k].i == i {
      assert cs[k + 1] == rest[k];
    }
    if k :| 0 <= k < |cs| && !cs[k].Emit? && !cs[k].EmitV? && cs[k].i == i {
      assert k > 0 ==> rest[k - 1] == cs[k];
    }
  }

  lemma PastFromStep(env: Env, n: Node, cs: seq<Command>, places: nat)
    requires cs != []
    ensures PastFrom(env, n, cs, places).None? <==>
            PastFrom(env, n, cs[1..], places).None?
                && (cs[0].Emit? || cs[0].EmitV? || PlaceFor(env, n, cs[0].i, places))
  {
  }

  /** From some command on no push fails exactly if no child visited from there fails. */
  lemma {:induction false} PastFromIff(env: Env, n: Node, cs: seq<Command>, places: nat)
    ensures PastFrom(env, n, cs, places).None? <==> forall i: nat | Visits(cs, i) :: PlaceFor(env, n, i, places)
    decreases |cs|
  {
    if cs != [] {
      PastFromIff(env, n, cs[1..], places);
      PastFromStep(env, n, cs, places);
      hide PastFrom, PlaceFor, Visits;
      forall i: nat ensures Visits(cs, i) <==> Visits(cs[1..], i) || (!cs[0].Emit? && !cs[0].EmitV? && cs[0].i == i) {
        VisitsRest(cs, i);
      }
    }
  }

  lemma {:induction false} PastThreshIff(env: Env, n: Node, step: nat, places: nat)
    requires n.Thresh?
    ensures PastThresh(env, n, step, places).None? <==> forall i | step <= i < |n.xs| :: PlaceFor(env, n, i, places)
    decreases |n.xs| - step
  {
    if step < |n.xs| {
      PastThreshIff(env, n, step + 1, places);
      PastThreshStep(env, n, step, places);
      hide PastThresh, PlaceFor;
    }
  }

  lemma PastThreshStep(env: Env, n: Node, step: nat, places: nat)
    requires n.Thresh? && step < |n.xs|
    ensures PastThresh(env, n, step, places).None? <==>
            PlaceFor(env, n, step, places) && PastThresh(env, n, step + 1, places).None?
  {
  }

  lemma PastChildIs(env: Env, n: Node, i: nat, places: nat)
    requires i < |Children(n)|
    ensures PastChild(env, n, i, places) == if places <= 1 then Some(n.Thresh?)
            else FirstPast(env, Children(n)[i], places - 1)
  {
    hide FirstPast;
  }

  /** No push fails exactly if none of the children fails. */
  lemma PastIff(env: Env, n: Node, places: nat)
    ensures FirstPast(env, n, places).None? <==> forall i | 0 <= i < |Children(n)| :: PlaceFor(env, n, i, places)
  {
    hide PlaceFor, PastFrom, PastThresh, Commands;
    if n.Thresh? {
      PastThreshIff(env, n, 0, places);
    } else {
      var cs := Commands(env, n);
      PastFromIff(env, n, cs, places);
      forall i | 0 <= i < |Children(n)| ensures Visits(cs, i) {
        ChildrenVisited(env, n, i);
      }
      forall i: nat | Visits(cs, i) ensures i < |Children(n)| {
        var k :| 0 <= k < |cs| && !cs[k].Emit? && !cs[k].EmitV? && cs[k].i == i;
        CommandsValid(env, n, k);
      }
    }
  }

  lemma DepthIff(n: Node, places: nat)
    ensures Depth(n) <= places <==>
            places >= 1 && forall i | 0 <= i < |Children(n)| :: Depth(Children(n)[i]) <= places - 1
  {
    match n
    case Thresh(_, xs) => DepthOfMany(xs, places - 1);
    case Wrap(_, x) =>
      assert Children(n)[0] == x;
    case Binary(_, x, y) =>
      assert Children(n)[0] == x && Children(n)[1] == y;
    case AndOr(x, y, z) =>
      assert Children(n)[0] == x && Children(n)[1] == y && Children(n)[2] == z;
    case Atom(_) =>
  }

  lemma {:induction false} DepthOfMany(xs: seq<Node>, most: int)
    ensures MaxDepth(xs) <= most <==> most >= 0 && forall i | 0 <= i < |xs| :: Depth(xs[i]) <= most
    decreases |xs|
  {
    if xs != [] {
      var n := |xs| - 1;
      DepthOfMany(xs[..n], most);
      assert forall i | 0 <= i < n :: xs[..n][i] == xs[i];
    }
  }

  /** All pushes find a place exactly if the policy is not nested deeper than there are places. */
  lemma {:induction false} PlacesSufficeIff(env: Env, n: Node, places: nat)
    requires places >= 1
    ensures FirstPast(env, n, places).None? <==> Depth(n) <= places
    decreases n
  {
    hide FirstPast, Depth, PastChild;
    PastIff(env, n, places);
    DepthIff(n, places);
    forall i | 0 <= i < |Children(n)| ensures PlaceFor(env, n, i, places) <==> Depth(Children(n)[i]) <= places - 1 {
      PastChildIs(env, n, i, places);
      ChildSmaller(n, i);
      if places > 1 {
        PlacesSufficeIff(env, Children(n)[i], places - 1);
      } else {
        AtLeastOne(Children(n)[i]);
      }
    }
  }

  lemma ChildSmaller(n: Node, i: nat)
    requires i < |Children(n)|
    ensures Children(n)[i] < n
  {
  }

  lemma AtLeastOne(n: Node)
    ensures Depth(n) >= 1
  {
  }

  /** How many steps a node takes at most, with everything below it. */
  function Work(env: Env, n: Node): (w: nat)
    ensures w >= 1
    decreases n, 3
  {
    if n.Thresh? then ThreshWork(env, n, 0) else WorkFrom(env, n, Commands(env, n))
  }

  function WorkFrom(env: Env, n: Node, cs: seq<Command>): (w: nat)
    ensures w >= 1
    decreases n, 2, |cs|
  {
    if cs == [] then 1 else 1 + CommandWork(env, n, cs[0]) + WorkFrom(env, n, cs[1..])
  }

  function CommandWork(env: Env, n: Node, c: Command): nat
    decreases n, 1
  {
    if c.Emit? || c.EmitV? then 0 else ChildWork(env, n, c.i)
  }

  function ChildWork(env: Env, n: Node, i: nat): nat
    decreases n, 0
  {
    match n
    case Atom(_) => 0
    case Wrap(_, x) => Work(env, x)
    case Binary(_, x, y) => if i == 0 then Work(env, x) else Work(env, y)
    case AndOr(x, y, z) => if i == 0 then Work(env, x) else if i == 1 then Work(env, y) else Work(env, z)
    case Thresh(_, xs) => if i < |xs| then Work(env, xs[i]) else 0
  }

  function ThreshWork(env: Env, n: Node, step: nat): (w: nat)
    requires n.Thresh?
    ensures w >= 1
    decreases n, 2, if step < |n.xs| then |n.xs| - step else 0
  {
    if step < |n.xs| then 1 + Work(env, n.xs[step]) + ThreshWork(env, n, step + 1) else 1
  }

  // ---------------------------------------------------------------- what a stack still has to emit

  predicate InRange(env: Env, f: Frame) {
    f.node.Thresh? || f.step <= |Commands(env, f.node)|
  }

  function Rest(env: Env, f: Frame): Script
    requires InRange(env, f)
  {
    if f.node.Thresh? then EmitThresh(env, f.node, f.step, f.v)
    else EmitFrom(env, f.node, Commands(env, f.node)[f.step..], f.v)
  }

  function RestWork(env: Env, f: Frame): (w: nat)
    requires InRange(env, f)
    ensures w >= 1
  {
    if f.node.Thresh? then ThreshWork(env, f.node, f.step) else WorkFrom(env, f.node, Commands(env, f.node)[f.step..])
  }

  ghost predicate AllInRange(env: Env, stack: seq<Frame>) {
    forall i :: 0 <= i < |stack| ==> InRange(env, stack[i])
  }

  /** The frame on top comes first. */
  ghost function RestAll(env: Env, stack: seq<Frame>): Script
    requires AllInRange(env, stack)
  {
    if stack == [] then [] else Rest(env, stack[|stack| - 1]) + RestAll(env, stack[..|stack| - 1])
  }

  ghost function WorkAll(env: Env, stack: seq<Frame>): nat
    requires AllInRange(env, stack)
  {
    if stack == [] then 0 else RestWork(env, stack[|stack| - 1]) + WorkAll(env, stack[..|stack| - 1])
  }

  /** The first push past the places among those that a frame still has to make. */
  function Past(env: Env, f: Frame, places: nat): Option<bool>
    requires InRange(env, f)
  {
    if f.node.Thresh? then PastThresh(env, f.node, f.step, places)
    else PastFrom(env, f.node, Commands(env, f.node)[f.step..], places)
  }

  ghost function PastAll(env: Env, stack: seq<Frame>): Option<bool>
    requires AllInRange(env, stack) && |stack| <= MAX_POLICY_DEPTH
  {
    if stack == [] then None
    else
      var n := |stack| - 1;
      Or(Past(env, stack[n], MAX_POLICY_DEPTH - n), PastAll(env, stack[..n]))
  }

  lemma RestPushed(env: Env, below: seq<Frame>, f: Frame)
    requires AllInRange(env, below) && InRange(env, f)
    ensures AllInRange(env, below + [f]) && RestAll(env, below + [f]) == Rest(env, f) + RestAll(env, below)
    ensures WorkAll(env, below + [f]) == RestWork(env, f) + WorkAll(env, below)
    ensures |below| < MAX_POLICY_DEPTH ==>
            PastAll(env, below + [f]) == Or(Past(env, f, MAX_POLICY_DEPTH - |below|), PastAll(env, below))
  {
    hide Rest, RestWork, InRange, Past;
    assert (below + [f])[..|below|] == below;
  }

  lemma ChildIs(env: Env, n: Node, i: nat, v: bool)
    requires i < |Children(n)|
    ensures EmitChild(env, n, i, v) == EmitNode(env, Children(n)[i], v)
            && ChildWork(env, n, i) == Work(env, Children(n)[i])
  {
    hide EmitNode, Work;
  }

  predicate ValidCommand(n: Node, c: Command) {
    c.Emit? || c.EmitV? || c.i < |Children(n)|
  }

  lemma {:induction false} KeyCommandsEmit(env: Env, keys: seq<nat>)
    ensures forall i :: 0 <= i < |KeyCommands(env, keys)| ==> KeyCommands(env, keys)[i].Emit?
    decreases |keys|
  {
    if keys != [] {
      KeyCommandsEmit(env, keys[1..]);
    }
  }

  lemma CommandsValid(env: Env, n: Node, i: nat)
    requires i < |Commands(env, n)|
    ensures ValidCommand(n, Commands(env, n)[i])
  {
    match n
    case Atom(leaf) =>
      if leaf.Multi? {
        KeyCommandsEmit(env, leaf.keys);
      }
    case Wrap(w, _) =>
    case Binary(op, _, _) =>
    case _ =>
  }

  lemma StepRest(env: Env, f: Frame)
    requires !f.node.Thresh? && f.step < |Commands(env, f.node)|
    ensures var c := Commands(env, f.node)[f.step];
            Rest(env, f) == EmitCommand(env, f.node, c, f.v) + Rest(env, f.(step := f.step + 1))
    ensures RestWork(env, f) == 1 + CommandWork(env, f.node, Commands(env, f.node)[f.step])
            + RestWork(env, f.(step := f.step + 1))
    ensures forall places :: Past(env, f, places) ==
              var c := Commands(env, f.node)[f.step];
              var rest := Past(env, f.(step := f.step + 1), places);
              if c.Emit? || c.EmitV? then rest else Or(PastChild(env, f.node, c.i, places), rest)
  {
    hide EmitCommand, CommandWork, Commands, PastChild;
    var cs := Commands(env, f.node);
    assert cs[f.step..][1..] == cs[f.step + 1..];
  }

  lemma StartRest(env: Env, n: Node, v: bool)
    ensures InRange(env, Frame(n, 0, v)) && Rest(env, Frame(n, 0, v)) == EmitNode(env, n, v)
    ensures RestWork(env, Frame(n, 0, v)) == Work(env, n)
    ensures forall places :: Past(env, Frame(n, 0, v), places) == FirstPast(env, n, places)
  {
    hide EmitFrom, EmitThresh, Commands, WorkFrom, ThreshWork, PastFrom, PastThresh;
    assert Commands(env, n)[0..] == Commands(env, n);
  }

  lemma DoneRest(env: Env, f: Frame)
    requires !f.node.Thresh? && f.step == |Commands(env, f.node)|
    ensures Rest(env, f) == [] && forall places :: Past(env, f, places) == None
  {
    hide Commands;
    assert Commands(env, f.node)[f.step..] == [];
  }

  // ---------------------------------------------------------------- the machine

  /** What one round leaves: more output, less work, and the same first push past the places. */
  ghost predicate Round(env: Env, out: Script, stack: seq<Frame>, out2: Script, stack2: seq<Frame>)
    requires AllInRange(env, stack) && |stack| <= MAX_POLICY_DEPTH
  {
    && AllInRange(env, stack2) && |stack2| <= MAX_POLICY_DEPTH
    && out2 + RestAll(env, stack2) == out + RestAll(env, stack)
    && WorkAll(env, stack2) < WorkAll(env, stack)
    && PastAll(env, stack2) == PastAll(env, stack)
  }

  /** A round pushes past the places: that is the first push to do so. */
  ghost predicate Overrun(env: Env, stack: seq<Frame>)
    requires AllInRange(env, stack) && |stack| <= MAX_POLICY_DEPTH
  {
    stack != [] && PastAll(env, stack) == Some(stack[|stack| - 1].node.Thresh?)
  }

  lemma EmitRound(env: Env, out: Script, below: seq<Frame>, f: Frame, g: Frame, emitted: Script)
    requires AllInRange(env, below) && |below| < MAX_POLICY_DEPTH && InRange(env, f) && InRange(env, g)
    requires Rest(env, f) == emitted + Rest(env, g) && RestWork(env, g) < RestWork(env, f)
    requires Past(env, f, MAX_POLICY_DEPTH - |below|) == Past(env, g, MAX_POLICY_DEPTH - |below|)
    ensures AllInRange(env, below + [f]) && Round(env, out, below + [f], out + emitted, below + [g])
  {
    hide Rest, RestWork, InRange, RestAll, WorkAll, Past, PastAll;
    RestPushed(env, below, f);
    RestPushed(env, below, g);
    assert out + (emitted + Rest(env, g) + RestAll(env, below)) == out + emitted + (Rest(env, g) + RestAll(env, below));
  }

  lemma PushRound(env: Env, out: Script, below: seq<Frame>, f: Frame, g: Frame, emitted: Script, child: Frame)
    requires AllInRange(env, below) && |below| + 1 < MAX_POLICY_DEPTH && InRange(env, f) && InRange(env, g)
             && InRange(env, child)
    requires Rest(env, f) == emitted + Rest(env, child) + Rest(env, g)
             && RestWork(env, child) + RestWork(env, g) < RestWork(env, f)
    requires var p := MAX_POLICY_DEPTH - |below|;
             Past(env, f, p) == Or(Past(env, child, p - 1), Past(env, g, p))
    ensures AllInRange(env, below + [f]) && Round(env, out, below + [f], out + emitted, below + [g, child])
  {
    hide Rest, RestWork, InRange, RestAll, WorkAll, Past, PastAll;
    RestPushed(env, below, f);
    RestPushed(env, below, g);
    RestPushed(env, below + [g], child);
    assert below + [g, child] == below + [g] + [child];
    assert out + (emitted + Rest(env, child) + Rest(env, g) + RestAll(env, below))
        == out + emitted + (Rest(env, child) + (Rest(env, g) + RestAll(env, below)));
  }

  lemma PopRound(env: Env, out: Script, below: seq<Frame>, f: Frame)
    requires AllInRange(env, below) && |below| < MAX_POLICY_DEPTH && InRange(env, f)
    requires Past(env, f, MAX_POLICY_DEPTH - |below|) == None
    ensures AllInRange(env, below + [f]) && Round(env, out, below + [f], out + Rest(env, f), below)
  {
    hide Rest, RestWork, InRange, RestAll, WorkAll, Past, PastAll;
    RestPushed(env, below, f);
    assert out + (Rest(env, f) + RestAll(env, below)) == out + Rest(env, f) + RestAll(env, below);
  }

  /** The push of a child, when all places are taken. */
  lemma OverrunAt(env: Env, below: seq<Frame>, f: Frame)
    requires AllInRange(env, below) && |below| + 1 == MAX_POLICY_DEPTH && InRange(env, f)
             && Past(env, f, 1) == Some(f.node.Thresh?)
    ensures AllInRange(env, below + [f]) && Overrun(env, below + [f])
  {
    hide Rest, RestWork, InRange, RestAll, WorkAll, Past, PastAll;
    RestPushed(env, below, f);
  }

  /** process_generic_node, with state_stack_push and state_stack_pop. The fragments pkh() and multi(),
      which have processors of their own that emit all their opcodes at once, take one round for each. */
  method GenericRound(env: Env, out: Script, stack: seq<Frame>) returns (fits: bool, out2: Script, stack2: seq<Frame>)
    requires stack != [] && AllInRange(env, stack) && |stack| <= MAX_POLICY_DEPTH && !stack[|stack| - 1].node.Thresh?
    ensures if fits then Round(env, out, stack, out2, stack2) else Overrun(env, stack)
  {
    hide Rest, RestWork, RestAll, WorkAll, Commands, EmitNode, EmitChild, Work, ChildWork, Round, Past, PastAll,
         PastChild;
    var below, f := stack[..|stack| - 1], stack[|stack| - 1];
    assert stack == below + [f];
    var commands := Commands(env, f.node);
    if f.step == |commands| {
      DoneRest(env, f);
      PopRound(env, out, below, f);
      assert out + [] == out;
      return true, out, below;
    }
    var g := f.(step := f.step + 1);
    var c := commands[f.step];
    StepRest(env, f);
    CommandsValid(env, f.node, f.step);
    fits, out2 := true, out;
    match c {
      case Emit(op) =>
        EmitRound(env, out, below, f, g, [op]);
        out2, stack2 := out + [op], below + [g];
      case EmitV(op) =>
        EmitRound(env, out, below, f, g, WithFlag(op, f.v));
        out2, stack2 := out + WithFlag(op, f.v), below + [g];
      case Child(i) =>
        fits, stack2 := PushChild(env, out, below, f, g, i, false);
      case ChildV(i) =>
        fits, stack2 := PushChild(env, out, below, f, g, i, f.v);
      case ChildVV(i) =>
        fits, stack2 := PushChild(env, out, below, f, g, i, true);
    }
  }

  method PushChild(env: Env, ghost out: Script, below: seq<Frame>, ghost f: Frame, g: Frame, i: nat, v: bool)
    returns (fits: bool, stack: seq<Frame>)
    requires AllInRange(env, below) && |below| < MAX_POLICY_DEPTH && InRange(env, f) && InRange(env, g)
    requires g.node == f.node && i < |Children(f.node)| && !f.node.Thresh?
    requires Rest(env, f) == EmitChild(env, f.node, i, v) + Rest(env, g)
    requires RestWork(env, f) == 1 + ChildWork(env, f.node, i) + RestWork(env, g)
    requires forall places :: Past(env, f, places) == Or(PastChild(env, f.node, i, places), Past(env, g, places))
    ensures AllInRange(env, below + [f])
    ensures if fits then Round(env, out, below + [f], out, stack) else Overrun(env, below + [f])
  {
    hide Rest, RestWork, RestAll, WorkAll, EmitNode, EmitChild, Work, ChildWork, Round, InRange, Past, PastAll,
         PastChild, Overrun;
    PastChildIs(env, f.node, i, MAX_POLICY_DEPTH - |below|);
    if |below| + 1 >= MAX_POLICY_DEPTH {
      OverrunAt(env, below, f);
      return false, [];
    }
    var child := Frame(Children(g.node)[i], 0, v);
    ChildIs(env, f.node, i, v);
    StartRest(env, child.node, v);
    assert [] + Rest(env, child) == Rest(env, child) && out + [] == out;
    PushRound(env, out, below, f, g, [], child);
    fits, stack := true, below + [g, child];
  }

  lemma ThreshStep(env: Env, f: Frame, places: nat)
    requires f.node.Thresh?
    ensures Past(env, f, places) ==
            if f.step < |f.node.xs| then Or(PastChild(env, f.node, f.step, places),
                                            Past(env, f.(step := f.step + 1), places)) else None
  {
    hide PastChild;
  }

  /** process_thresh_node. */
  method ThreshRound(env: Env, out: Script, stack: seq<Frame>) returns (fits: bool, out2: Script, stack2: seq<Frame>)
    requires stack != [] && AllInRange(env, stack) && |stack| <= MAX_POLICY_DEPTH && stack[|stack| - 1].node.Thresh?
    ensures if fits then Round(env, out, stack, out2, stack2) else Overrun(env, stack)
  {
    hide RestAll, WorkAll, EmitNode, Work, Round, WithFlag, PushNum, Past, PastAll, PastChild, Overrun;
    var below, f := stack[..|stack| - 1], stack[|stack| - 1];
    assert stack == below + [f];
    var n := f.node;
    ThreshStep(env, f, MAX_POLICY_DEPTH - |below|);
    if f.step < |n.xs| {
      PastChildIs(env, n, f.step, MAX_POLICY_DEPTH - |below|);
      var add := if f.step > 1 then [Add] else [];
      var g, child := f.(step := f.step + 1), Frame(n.xs[f.step], 0, false);
      if |below| + 1 >= MAX_POLICY_DEPTH {
        OverrunAt(env, below, f);
        return false, [], [];
      }
      ChildIs(env, n, f.step, false);
      StartRest(env, child.node, false);
      PushRound(env, out, below, f, g, add, child);
      fits, out2, stack2 := true, out + add, below + [g, child];
    } else {
      PopRound(env, out, below, f);
      fits := true;
      out2 := out + ((if |n.xs| >= 1 then [Add] else []) + [PushNum(n.k)] + WithFlag(Equal(false), f.v));
      stack2 := below;
    }
  }

  /** How the loop ends: with the script, or at a push that finds no place. A thresh() reports that; a
      node of any other kind does not look at the result of the push. */
  datatype Emission = Emitted(out: Script) | NoPlace(byThresh: bool)

  /** The whole loop, for every policy: it ends with the script of the policy exactly if the policy is
      nested at most ten levels deep, and otherwise at the first push that finds no place. */
  method EmitPolicy(env: Env, policy: Node) returns (r: Emission)
    ensures r.Emitted? <==> Depth(policy) <= MAX_POLICY_DEPTH
    ensures r.Emitted? ==> r.out == EmitNode(env, policy, false)
    ensures r.NoPlace? ==> FirstPast(env, policy, MAX_POLICY_DEPTH) == Some(r.byThresh)
  {
    hide RestAll, WorkAll, Rest, RestWork, Depth, EmitNode, Work, Commands, InRange, AllInRange, FirstPast, PastAll;
    PlacesSufficeIff(env, policy, MAX_POLICY_DEPTH);
    var out: Script := [];
    var stack := [Frame(policy, 0, false)];
    StartStack(env, policy);
    while stack != []
      invariant AllInRange(env, stack) && |stack| <= MAX_POLICY_DEPTH
      invariant out + RestAll(env, stack) == EmitNode(env, policy, false)
      invariant PastAll(env, stack) == FirstPast(env, policy, MAX_POLICY_DEPTH)
      decreases WorkAll(env, stack)
    {
      var fits, byThresh := true, stack[|stack| - 1].node.Thresh?;
      if byThresh {
        fits, out, stack := ThreshRound(env, out, stack);
      } else {
        fits, out, stack := GenericRound(env, out, stack);
      }
      if !fits {
        return NoPlace(byThresh);
      }
    }
    NothingLeft(env, out);
    r := Emitted(out);
  }

  lemma StartStack(env: Env, policy: Node)
    ensures var stack := [Frame(policy, 0, false)];
            && AllInRange(env, stack) && [] + RestAll(env, stack) == EmitNode(env, policy, false)
            && PastAll(env, stack) == FirstPast(env, policy, MAX_POLICY_DEPTH)
  {
    hide Rest, RestWork, EmitNode, Work, Commands, InRange, FirstPast, Past;
    var f := Frame(policy, 0, false);
    StartRest(env, policy, false);
    RestPushed(env, [], f);
    assert [] + [f] == [f];
    assert Rest(env, f) + [] == Rest(env, f);
  }

  lemma NothingLeft(env: Env, out: Script)
    ensures AllInRange(env, []) && out + RestAll(env, []) == out && PastAll(env, []) == None
  {
  }

  /** n wrappers n: around pk(0). */
  function Nested(n: nat): Node {
    if n == 0 then Atom(Pk(0)) else Wrap(WrapN, Nested(n - 1))
  }

  lemma {:induction false} NestedDepth(n: nat)
    ensures Depth(Nested(n)) == n + 1 && TypeOf(Nested(n)).Some? && TypeOf(Nested(n)).value.base == B
  {
    if n > 0 {
      NestedDepth(n - 1);
    }
  }

  /** Ten wrappers around pk() are a policy that the parser accepts and that has no place: the push that
      fails is not made by a thresh(). */
  lemma TooDeep(env: Env)
    ensures TypeOf(Nested(10)).Some? && Depth(Nested(10)) == 11
    ensures FirstPast(env, Nested(10), MAX_POLICY_DEPTH) == Some(false)
  {
    NestedDepth(10);
    NestedPast(env, 10, MAX_POLICY_DEPTH);
  }

  lemma {:induction false} NestedPast(env: Env, n: nat, places: nat)
    requires 1 <= places <= n
    ensures FirstPast(env, Nested(n), places) == Some(false)
    decreases n
  {
    var m, x, cs := Nested(n), Nested(n - 1), [Child(0), EmitV(ZeroNotEqual)];
    assert m == Wrap(WrapN, x) && Commands(env, m) == cs;
    PastChildIs(env, m, 0, places);
    assert FirstPast(env, m, places) == PastFrom(env, m, cs, places);
    assert PastFrom(env, m, cs, places) == Or(PastChild(env, m, 0, places), PastFrom(env, m, cs[1..], places));
    if places > 1 {
      NestedPast(env, n - 1, places - 1);
    }
  }

  // ---------------------------------------------------------------- numbers

  /** update_output_push_u32: the bytes that push a number in the fewest bytes. */
  method PushU32(n: nat) returns (b: Bytes)
    requires n < 0x1_0000_0000
    ensures b == SerializeOp(PushNum(n))
  {
    if n == 0 {
      return [0];
    }
    if n <= 16 {
      return [0x50 + n];
    }
    var le: Bytes := [n % 256, n / 256 % 256, n / 256 / 256 % 256, n / 256 / 256 / 256];
    EncodedBytes(n);
    if n <= 0x7f {
      b := [1] + le[..1];
    } else if n <= 0x7fff {
      b := [2] + le[..2];
    } else if n <= 0x7f_ffff {
      b := [3] + le[..3];
    } else if n <= 0x7fff_ffff {
      b := [4] + le[..4];
    } else {
      b := [5] + le[..4] + [0];
    }
  }

  lemma EncodedBytes(n: nat)
    requires 16 < n < 0x1_0000_0000
    ensures var a, b, c, d := n % 256, n / 256 % 256, n / 256 / 256 % 256, n / 256 / 256 / 256;
            EncodePositive(n) == if n <= 0x7f then [a] else if n <= 0x7fff then [a, b]
                else if n <= 0x7f_ffff then [a, b, c]
                                 else if n <= 0x7fff_ffff then [a, b, c, d] else [a, b, c, d, 0]
  {
    EncodeStep(n);
    EncodeStep(n / 256);
    EncodeStep(n / 256 / 256);
    EncodeStep(n / 256 / 256 / 256);
    hide EncodePositive;
    if n > 0x7fff_ffff {
      EncodeZero();
    }
  }

  lemma EncodeStep(n: nat)
    ensures EncodePositive(n) == if n < 0x80 then [n] else [n % 256] + EncodePositive(n / 256)
  {
  }

  lemma EncodeZero()
    ensures EncodePositive(0) == [0]
  {
  }
}
