/** The concurrent hasher as a state machine: the main thread launches one goroutine per double segment
    and waits; each goroutine writes into a node, toggles it, and either stops there or climbs on.  Every
    read and every write of a node's field is a step of its own, as is the atomic toggle. */
module BmtRuns {
  import opened Transactions
  import opened Bmt

  const MAX_INT32: int := 0x7FFF_FFFF

  datatype Pos = Pos(level: nat, index: nat)

  const Root: Pos := Pos(0, 0)

  function Up(p: Pos): Pos
    requires p.level > 0
  {
    Pos(p.level - 1, p.index / 2)
  }

  function Left(p: Pos): Pos {
    Pos(p.level + 1, 2 * p.index)
  }

  function Right(p: Pos): Pos {
    Pos(p.level + 1, 2 * p.index + 1)
  }

  datatype Node = Node(state: int, left: Bytes, right: Bytes, unbalanced: bool, root: bool)

  /** A goroutine.  `at` is the position it comes from: it acts on the node above.  `joined` says that it goes
      on with the two sides joined and not hashed. */
  datatype Go =
    | Idle
    | Started
    | Writing(at: Pos, s: Bytes)
    | Checking(at: Pos)
    | Toggling(at: Pos)
    | Rechecking(at: Pos)
    | ReadingLeft(at: Pos, joined: bool)
    | ReadingRight(at: Pos, joined: bool, left: Bytes)
    | ReadingRoot(at: Pos, s: Bytes)
    | Sending(s: Bytes)
    | Ended

  datatype Main =
    | Launching(next: nat)
    | FinalUnbalanced(level: nat)
    | FinalRight(level: nat)
    | FinalRoot
    | LaunchingLast
    | Waiting
    | ReleaseUnbalanced(hash: Bytes, level: nat)
    | ReleaseRoot(hash: Bytes, level: nat)
    | Released

  datatype State = State(nodes: map<Pos, Node>, gs: seq<Go>, main: Main, sent: seq<Bytes>)

  datatype Event = MainStep | GoStep(g: nat)

  /** An atomic 32-bit increment, and whether it left an odd value, which it tells by a remainder of one. */
  function Toggle(state: int): (int, bool) {
    var t := if state == MAX_INT32 then -MAX_INT32 - 1 else state + 1;
    (t, t > 0 && t % 2 == 1)
  }

  /** The `i`-th double segment of the chunk. */
  function Segment(env: Env, i: nat): Bytes {
    if (i + 1) * (2 * env.size) <= |env.chunk| then env.chunk[i * (2 * env.size)..(i + 1) * (2 * env.size)] else []
  }

  function Leaves(env: Env): nat {
    Pow2(env.depth)
  }

  /** The node of the final segment's path at a level: the last of its level. */
  function Spine(level: nat): Pos {
    Pos(level, Pow2(level) - 1)
  }

  /** A write to the node at a position, if there is one. */
  function Put(st: State, p: Pos, n: Node -> Node, main: Main): Option<State> {
    if p in st.nodes then Some(st.(nodes := st.nodes[p := n(st.nodes[p])], main := main)) else None
  }

  /** The main thread launches all but the last double segment, finalises the last one's path, launches it, and
      having received a result releases the tree. */
  function StepMain(env: Env, st: State): Option<State> {
    match st.main
    case Launching(i) =>
      if i + 1 < Leaves(env) && i < |st.gs| then Some(st.(gs := st.gs[i := Started], main := Launching(i + 1)))
      else if env.depth > 0 then Some(st.(main := FinalUnbalanced(env.depth - 1)))
      else None
    case FinalUnbalanced(level) =>
      // whether the path comes from the left: from the last position of the level below
      Put(st, Spine(level), (n: Node) => n.(unbalanced := (Pow2(level + 1) - 1) % 2 == 0), FinalRight(level))
    case FinalRight(level) =>
      Put(st, Spine(level), (n: Node) => n.(right := []), if level == 0 then FinalRoot else FinalUnbalanced(level - 1))
    case FinalRoot =>
      Put(st, Root, (n: Node) => n.(root := true), LaunchingLast)
    case LaunchingLast =>
      if |st.gs| == 0 then None
      else Some(st.(gs := st.gs[|st.gs| - 1 := Started], main := Waiting))
    case ReleaseUnbalanced(h, level) =>
      Put(st, Spine(level), (n: Node) => n.(unbalanced := false), if level == 0 then Released else ReleaseRoot(h,
          level))
    case ReleaseRoot(h, level) =>
      if level == 0 then None
      else Put(st, Spine(level), (n: Node) => n.(root := false), ReleaseUnbalanced(h, level - 1))
    case _ => None
  }

  /** What a goroutine does next, given the node it looks at. */
  function NextGo(env: Env, n: Node, go: Go): Option<Go> {
    match go
    case Checking(at) => Some(if n.unbalanced then Rechecking(at) else Toggling(at))
    case Rechecking(at) => Some(ReadingLeft(at, n.unbalanced && at.index % 2 == 0))
    case ReadingLeft(at, joined) => Some(ReadingRight(at, joined, n.left))
    case ReadingRight(at, joined, left) =>
      Some(ReadingRoot(at, if joined then left + n.right else env.hash(left + n.right)))
    case ReadingRoot(at, s) =>
      if at.level == 0 then None else Some(if n.root then Sending(s) else Writing(Up(at), s))
    case _ => None
  }

  function StepGo(env: Env, st: State, g: nat): Option<State>
    requires g < |st.gs|
  {
    match st.gs[g]
    case Started =>
      var at, s := Pos(env.depth, g), env.hash(Segment(env, g));
      if at !in st.nodes then None
      else Some(st.(gs := st.gs[g := if st.nodes[at].root then Sending(s) else Writing(at, s)]))
    case Writing(at, s) =>
      if at.level == 0 || Up(at) !in st.nodes then None
      else
        var n := st.nodes[Up(at)];
        var n' := if at.index % 2 == 0 then n.(left := s) else n.(right := s);
        Some(st.(nodes := st.nodes[Up(at) := n'], gs := st.gs[g := Checking(at)]))
    case Toggling(at) =>
      if at.level == 0 || Up(at) !in st.nodes then None
      else
        var n := st.nodes[Up(at)];
        var (t, first) := Toggle(n.state);
        Some(st.(nodes := st.nodes[Up(at) := n.(state := t)],
                 gs := st.gs[g := if first then Ended else Rechecking(at)]))
    case Sending(s) =>
      if st.main == Waiting then
        Some(st.(gs := st.gs[g := Ended], main := ReleaseUnbalanced(s, env.depth), sent := st.sent + [s]))
      else None
    case Idle => None
    case Ended => None
    case _ =>
      var at := st.gs[g].at;
      if at.level == 0 || Up(at) !in st.nodes then None
      else
        match NextGo(env, st.nodes[Up(at)], st.gs[g])
        case None => None
        case Some(go) => Some(st.(gs := st.gs[g := go]))
  }

  function Step(env: Env, st: State, ev: Event): Option<State> {
    match ev
    case MainStep => StepMain(env, st)
    case GoStep(g) => if g < |st.gs| then StepGo(env, st, g) else None
  }

  // ---------- the values the tree is to hold ----------

  function Value(env: Env, p: Pos): Bytes
    decreases env.depth - p.level
  {
    if p.level >= env.depth then env.hash(Segment(env, p.index))
    else env.hash(Value(env, Left(p)) + Value(env, Right(p)))
  }

  predicate IsEdge(env: Env, p: Pos) {
    p.level <= env.depth && p.index < Pow2(p.level)
  }

  predicate IsNode(env: Env, p: Pos) {
    p.level < env.depth && p.index < Pow2(p.level)
  }

  /** A tree ready for a chunk: toggles even, flags as the tree was built. */
  ghost predicate Clean(env: Env, nodes: map<Pos, Node>) {
    LeavesOk(env, nodes) && forall p | IsNode(env, p) :: p in nodes && CleanNode(p, nodes[p])
  }

  /** The leaves, on which nothing but the flag is read. */
  ghost predicate LeavesOk(env: Env, nodes: map<Pos, Node>) {
    forall p: Pos | p.level == env.depth && p.index < Pow2(p.level) :: p in nodes && !nodes[p].root
  }

  predicate CleanNode(p: Pos, n: Node) {
    0 <= n.state <= MAX_INT32 && n.state % 2 == 0 && !n.unbalanced && n.root == (p.level == 0)
  }

  ghost predicate Initial(env: Env, st: State) {
    Clean(env, st.nodes) && Ready(env, st)
  }

  /** Nothing has been launched. */
  ghost predicate Ready(env: Env, st: State) {
    && |st.gs| == Leaves(env) && (forall g | 0 <= g < |st.gs| :: st.gs[g] == Idle)
    && st.main == Launching(0) && st.sent == []
  }

  // ---------- the invariant, with a history of how far each position has got ----------

  datatype Stage = Wr | Ck | Tg | First | Rc | Rl | Rr | Rt | Passed

  datatype Edge = Edge(g: nat, stage: Stage)

  type History = map<Pos, Edge>

  function At(h: History, p: Pos): Option<Edge> {
    if p in h then Some(h[p]) else None
  }

  /** The goroutine from a position has toggled the node above. */
  predicate Toggled(e: Option<Edge>) {
    e.Some? && e.value.stage != Wr && e.value.stage != Ck && e.value.stage != Tg
  }

  predicate Written(e: Option<Edge>) {
    e.Some? && e.value.stage != Wr
  }

  predicate Is(e: Option<Edge>, stage: Stage) {
    e.Some? && e.value.stage == stage
  }

  /** The 32-bit value after `k` increments. */
  function Bump(state: int, k: nat): int {
    if state + k > MAX_INT32 then state + k - 2 * MAX_INT32 - 2 else state + k
  }

  /** A node, given its initial value, the stages at the positions below it, and whether anything has
      got to its own position. */
  ghost predicate NodeOk(env: Env, p: Pos, n0: Node, n: Node, a: Option<Edge>, b: Option<Edge>, reached: bool) {
    && n.state == Bump(n0.state, (if Toggled(a) then 1 else 0) + (if Toggled(b) then 1 else 0))
    && !n.unbalanced && n.root == (p.level == 0)
    && (Written(a) ==> n.left == Value(env, Left(p)))
    && (Written(b) ==> n.right == Value(env, Right(p)))
    && (Toggled(a) && !Toggled(b) ==> Is(a, First))
    && (Toggled(b) && !Toggled(a) ==> Is(b, First))
    && (Toggled(a) && Toggled(b) ==> (Is(a, First) <==> !Is(b, First)))
    && (reached <==> Is(a, Passed) || Is(b, Passed))
  }

  /** The position a goroutine is at and the stage it has got to there. */
  function Place(go: Go): Option<(Pos, Stage)> {
    match go
    case Writing(at, _) => Some((at, Wr))
    case Checking(at) => Some((at, Ck))
    case Toggling(at) => Some((at, Tg))
    case Rechecking(at) => Some((at, Rc))
    case ReadingLeft(at, _) => Some((at, Rl))
    case ReadingRight(at, _, _) => Some((at, Rr))
    case ReadingRoot(at, _) => Some((at, Rt))
    case Sending(_) => Some((Root, Wr))
    case _ => None
  }

  /** What a goroutine carries is right. */
  ghost predicate Carries(env: Env, go: Go) {
    match go
    case Writing(at, s) => s == Value(env, at)
    case ReadingLeft(_, joined) => !joined
    case ReadingRight(at, joined, left) => !joined && at.level > 0 && left == Value(env, Left(Up(at)))
    case ReadingRoot(at, s) => at.level > 0 && s == Value(env, Up(at))
    case Sending(s) => s == Value(env, Root)
    case _ => true
  }

  /** A goroutine and the history of the position it is at agree. */
  ghost predicate GoOk(env: Env, h: History, g: nat, go: Go) {
    && Carries(env, go) && (Pos(env.depth, g) in h <==> go != Idle && go != Started)
    && (Place(go).Some? ==>
          var (at, stage) := Place(go).value;
          At(h, at) == Some(Edge(g, stage)) && (go.Sending? <==> at.level == 0))
  }

  /** The goroutine an active position names is there, at that stage. */
  ghost predicate EdgeOk(env: Env, gs: seq<Go>, p: Pos, e: Edge) {
    && IsEdge(env, p) && e.g < |gs| && (p.level == 0 ==> e.stage == Wr || e.stage == Passed)
    && (e.stage != First && e.stage != Passed ==> Place(gs[e.g]) == Some((p, e.stage)))
  }

  /** How many goroutines the main thread has launched. */
  function Launched(env: Env, main: Main): nat {
    match main
    case Launching(i) => i
    case FinalUnbalanced(_) => Leaves(env) - 1
    case FinalRight(_) => Leaves(env) - 1
    case FinalRoot => Leaves(env) - 1
    case LaunchingLast => Leaves(env) - 1
    case _ => Leaves(env)
  }

  ghost predicate MainOk(env: Env, main: Main, sent: seq<Bytes>, rootEdge: Option<Edge>) {
    && (main.Launching? ==> main.next < Leaves(env))
    && (main.FinalUnbalanced? || main.FinalRight? ==> main.level < env.depth)
    && (main.ReleaseUnbalanced? || main.ReleaseRoot? ==> main.level <= env.depth && main.hash == Value(env, Root))
    && (main.ReleaseRoot? ==> main.level > 0)
    && (Is(rootEdge, Passed) <==> main.ReleaseUnbalanced? || main.ReleaseRoot? || main.Released?)
    && sent == if Is(rootEdge, Passed) then [Value(env, Root)] else []
  }

  ghost predicate GosOk(env: Env, gs: seq<Go>, h: History) {
    |gs| == Leaves(env) && forall g | 0 <= g < |gs| :: GoOk(env, h, g, gs[g])
  }

  ghost predicate IdleFrom(gs: seq<Go>, launched: nat) {
    forall g | 0 <= g < |gs| :: gs[g] == Idle <==> g >= launched
  }

  ghost predicate EdgesOk(env: Env, gs: seq<Go>, h: History) {
    forall p | p in h :: EdgeOk(env, gs, p, h[p])
  }

  ghost predicate NodesOk(env: Env, nodes0: map<Pos, Node>, nodes: map<Pos, Node>, h: History) {
    && Clean(env, nodes0) && LeavesOk(env, nodes)
    && forall p | IsNode(env, p) ::
         p in nodes0 && p in nodes && NodeOk(env, p, nodes0[p], nodes[p], At(h, Left(p)), At(h, Right(p)), p in h)
  }

  ghost predicate Inv(env: Env, nodes0: map<Pos, Node>, st: State, h: History) {
    && GosOk(env, st.gs, h)
    && IdleFrom(st.gs, Launched(env, st.main))
    && EdgesOk(env, st.gs, h)
    && NodesOk(env, nodes0, st.nodes, h)
    && MainOk(env, st.main, st.sent, At(h, Root))
  }

  lemma InitialInv(env: Env, st: State)
    requires Full(env) && Initial(env, st)
    ensures Inv(env, st.nodes, st, map[])
  {}

  // ---------- every step keeps the invariant ----------

  /** History moves only at positions of goroutine `g`; what it adds is `g`'s own leaf or lies above the leaves. */
  ghost predicate Moves(env: Env, h: History, h': History, g: nat) {
    && (forall p | p in h :: p in h')
    && (forall p | p in h' && At(h, p) != At(h', p) :: h'[p].g == g)
    && (forall p | p in h && At(h, p) != At(h', p) :: h[p].g == g)
    && (forall p | p in h' && p !in h :: p.level < env.depth || p == Pos(env.depth, g))
  }

  /** The goroutine is not active anywhere but at `at`. */
  predicate OnlyAt(go: Go, at: Pos) {
    Place(go).Some? ==> Place(go).value.0 == at
  }

  /** The other goroutines notice nothing. */
  lemma OtherGos(env: Env, h: History, h': History, g: nat, k: nat, go: Go)
    requires Moves(env, h, h', g) && k != g && GoOk(env, h, k, go)
    ensures GoOk(env, h', k, go)
  {
    hide Value;
  }

  /** A position that did not move is still right, if `g` was active elsewhere. */
  lemma OtherEdges(env: Env, gs: seq<Go>, gs': seq<Go>, g: nat, at: Pos, p: Pos, e: Edge)
    requires g < |gs| && |gs'| == |gs| && gs' == gs[g := gs'[g]] && EdgeOk(env, gs, p, e)
    requires OnlyAt(gs[g], at) && p != at
    ensures EdgeOk(env, gs', p, e)
  {
    hide Value;
  }

  /** The goroutine part of a step in which `g`, active at `at`, becomes `go`. */
  lemma GoMoves(env: Env, gs: seq<Go>, gs': seq<Go>, launched: nat, h: History, h': History, g: nat, at: Pos)
    requires GosOk(env, gs, h) && IdleFrom(gs, launched) && EdgesOk(env, gs, h)
    requires g < |gs| && |gs'| == |gs| && gs' == gs[g := gs'[g]] && gs[g] != Idle && gs'[g] != Idle
    requires OnlyAt(gs[g], at) && Moves(env, h, h', g) && GoOk(env, h', g, gs'[g])
    requires forall p | p in h' && (p == at || At(h, p) != At(h', p)) :: EdgeOk(env, gs', p, h'[p])
    ensures GosOk(env, gs', h') && IdleFrom(gs', launched) && EdgesOk(env, gs', h')
  {
    hide GoOk, EdgeOk, Value;
    forall k | 0 <= k < |gs'| ensures GoOk(env, h', k, gs'[k]) {
      if k != g {
        OtherGos(env, h, h', g, k, gs[k]);
      }
    }
    forall p | p in h' ensures EdgeOk(env, gs', p, h'[p]) {
      if p != at && At(h, p) == At(h', p) {
        OtherEdges(env, gs, gs', g, at, p, h[p]);
      }
    }
  }

  /** A leaf position that has just been reached changes nothing for the node above. */
  lemma NewLeafNodes(env: Env, nodes0: map<Pos, Node>, nodes: map<Pos, Node>, h: History, at: Pos, e: Edge)
    requires NodesOk(env, nodes0, nodes, h) && at !in h && e.stage == Wr && at.level == env.depth
    ensures NodesOk(env, nodes0, nodes, h[at := e])
  {
    hide NodeOk, Clean, LeavesOk, Left, Right, Pow2;
    var h' := h[at := e];
    forall p | IsNode(env, p) ensures NodeOk(env, p, nodes0[p], nodes[p], At(h', Left(p)), At(h', Right(p)), p in h') {
      ReachNode(env, p, nodes0[p], nodes[p], At(h, Left(p)), At(h, Right(p)), p in h, At(h', Left(p)), At(h',
          Right(p)));
    }
  }

  lemma StartStep(env: Env, st: State, g: nat)
    requires g < |st.gs| == Leaves(env) && st.gs[g] == Started && LeavesOk(env, st.nodes)
    ensures var at := Pos(env.depth, g);
            StepGo(env, st, g) == Some(st.(gs := st.gs[g := Writing(at, Value(env, at))]))
  {
    var at := Pos(env.depth, g);
    assert at in st.nodes && !st.nodes[at].root;
  }

  lemma StartKeeps(env: Env, nodes0: map<Pos, Node>, st: State, h: History, g: nat) returns (h': History)
    requires env.depth > 0 && Inv(env, nodes0, st, h) && g < |st.gs| && st.gs[g] == Started
    ensures StepGo(env, st, g).Some? && Inv(env, nodes0, StepGo(env, st, g).value, h')
  {
    hide NodesOk, MainOk, IdleFrom, EdgesOk, Value, StepGo, Launched, LeavesOk;
    var at := Pos(env.depth, g);
    h' := h[at := Edge(g, Wr)];
    LeavesThere(env, nodes0, st.nodes, h);
    StartStep(env, st, g);
    assert GoOk(env, h, g, st.gs[g]);
    GoMoves(env, st.gs, StepGo(env, st, g).value.gs, Launched(env, st.main), h, h', g, at);
    NewLeafNodes(env, nodes0, st.nodes, h, at, Edge(g, Wr));
  }

  lemma LeavesThere(env: Env, nodes0: map<Pos, Node>, nodes: map<Pos, Node>, h: History)
    requires NodesOk(env, nodes0, nodes, h)
    ensures LeavesOk(env, nodes)
  {}

  /** The node part of a step that changes the stage at `at`, and perhaps the node above. */
  lemma NodeMoves(env: Env, nodes0: map<Pos, Node>, nodes: map<Pos, Node>, nodes': map<Pos, Node>, h: History,
                  at: Pos, e: Edge)
    requires NodesOk(env, nodes0, nodes, h) && at in h && at.level > 0
    requires IsNode(env, Up(at)) && Up(at).level < env.depth
    requires Up(at) in nodes' && nodes' == nodes[Up(at) := nodes'[Up(at)]]
    requires var h' := h[at := e];
             NodeOk(env, Up(at), nodes0[Up(at)], nodes'[Up(at)], At(h', Left(Up(at))), At(h', Right(Up(at))),
                 Up(at) in h')
    ensures NodesOk(env, nodes0, nodes', h[at := e])
  {
    hide NodeOk, Clean, IsNode, Up, Left, Right;
    var h' := h[at := e];
    forall p | IsNode(env, p) ensures NodeOk(env, p, nodes0[p], nodes'[p], At(h', Left(p)), At(h', Right(p)), p in h') {
      ChildrenOf(p);
    }
    LeavesStill(env, nodes, Up(at), nodes'[Up(at)]);
  }

  lemma LeavesStill(env: Env, nodes: map<Pos, Node>, p: Pos, n: Node)
    requires LeavesOk(env, nodes) && p.level < env.depth
    ensures LeavesOk(env, nodes[p := n])
  {}

  lemma ChildrenOf(p: Pos)
    ensures Up(Left(p)) == p && Up(Right(p)) == p && Left(p) != Right(p) && Left(p) != p && Right(p) != p
  {}

  /** What the invariant says around the position a goroutine is at. */
  lemma Around(env: Env, nodes0: map<Pos, Node>, st: State, h: History, g: nat, at: Pos)
    requires Inv(env, nodes0, st, h) && g < |st.gs| && At(h, at).Some? && at.level > 0
    ensures IsEdge(env, at) && IsNode(env, Up(at)) && Up(at) in st.nodes && Up(at) in nodes0
            && CleanNode(Up(at), nodes0[Up(at)])
    ensures var q := Up(at);
            && NodeOk(env, q, nodes0[q], st.nodes[q], At(h, Left(q)), At(h, Right(q)), q in h)
            && at == if at.index % 2 == 0 then Left(q) else Right(q)
  {
    hide NodeOk, NodesOk, EdgesOk, GosOk, Value, Up, IsNode, CleanNode;
    AtEdge(env, st.gs, h, at);
    Above(env, at);
    AtNode(env, nodes0, st.nodes, h, Up(at));
  }

  lemma Above(env: Env, at: Pos)
    requires IsEdge(env, at) && at.level > 0
    ensures IsNode(env, Up(at)) && at == if at.index % 2 == 0 then Left(Up(at)) else Right(Up(at))
  {}

  lemma AtNode(env: Env, nodes0: map<Pos, Node>, nodes: map<Pos, Node>, h: History, p: Pos)
    requires NodesOk(env, nodes0, nodes, h) && IsNode(env, p)
    ensures p in nodes && p in nodes0 && CleanNode(p, nodes0[p])
    ensures NodeOk(env, p, nodes0[p], nodes[p], At(h, Left(p)), At(h, Right(p)), p in h)
  {
    hide NodeOk, CleanNode, LeavesOk;
  }

  /** A step of goroutine `g` at `at` that takes it to another stage there, or stops it as the first. */
  lemma StageMoves(env: Env, nodes0: map<Pos, Node>, st: State, h: History, g: nat, at: Pos, go: Go, n: Node,
                   stage: Stage)
    requires env.depth > 0 && Inv(env, nodes0, st, h) && g < |st.gs| && at.level > 0
    requires Place(st.gs[g]).Some? && Place(st.gs[g]).value.0 == at && !st.gs[g].Sending?
    requires if go == Ended then stage == First else Place(go) == Some((at, stage)) && stage != Passed && !go.Sending?
    requires Carries(env, go) && Up(at) in nodes0
    requires var h' := h[at := Edge(g, stage)]; var q := Up(at);
             NodeOk(env, q, nodes0[q], n, At(h', Left(q)), At(h', Right(q)), q in h')
    ensures Inv(env, nodes0, st.(gs := st.gs[g := go], nodes := st.nodes[Up(at) := n]), h[at := Edge(g, stage)])
  {
    hide NodesOk, NodeOk, MainOk, IdleFrom, EdgesOk, Value, Carries, Launched, Leaves;
    var h' := h[at := Edge(g, stage)];
    assert GoOk(env, h, g, st.gs[g]);
    Around(env, nodes0, st, h, g, at);
    GoMoves(env, st.gs, st.gs[g := go], Launched(env, st.main), h, h', g, at);
    NodeMoves(env, nodes0, st.nodes, st.nodes[Up(at) := n], h, at, Edge(g, stage));
  }

  lemma WriteStep(env: Env, st: State, g: nat, at: Pos)
    requires g < |st.gs| && st.gs[g].Writing? && st.gs[g].at == at && at.level > 0 && Up(at) in st.nodes
    ensures var n := st.nodes[Up(at)];
            var n' := if at.index % 2 == 0 then n.(left := st.gs[g].s) else n.(right := st.gs[g].s);
            StepGo(env, st, g) == Some(st.(nodes := st.nodes[Up(at) := n'], gs := st.gs[g := Checking(at)]))
  {}

  /** Writing a position's value into its side of the node. */
  lemma WriteNode(env: Env, p: Pos, n0: Node, n: Node, a: Option<Edge>, b: Option<Edge>, reached: bool, left: bool,
                  g: nat)
    requires NodeOk(env, p, n0, n, a, b, reached) && Is(if left then a else b, Wr)
    ensures var n' := if left then n.(left := Value(env, Left(p))) else n.(right := Value(env, Right(p)));
            var e := Some(Edge(g, Ck));
            NodeOk(env, p, n0, n', if left then e else a, if left then b else e, reached)
  {
    hide Value, Bump;
  }

  lemma WriteKeeps(env: Env, nodes0: map<Pos, Node>, st: State, h: History, g: nat) returns (h': History)
    requires env.depth > 0 && Inv(env, nodes0, st, h) && g < |st.gs| && st.gs[g].Writing?
    ensures StepGo(env, st, g).Some? && Inv(env, nodes0, StepGo(env, st, g).value, h')
  {
    hide NodesOk, NodeOk, MainOk, IdleFrom, EdgesOk, Value, StepGo, Launched, Leaves, CleanNode;
    var at := st.gs[g].at;
    assert GoOk(env, h, g, st.gs[g]);
    h' := h[at := Edge(g, Ck)];
    Around(env, nodes0, st, h, g, at);
    var q := Up(at);
    ChildrenOf(q);
    WriteStep(env, st, g, at);
    WriteNode(env, q, nodes0[q], st.nodes[q], At(h, Left(q)), At(h, Right(q)), q in h, at.index % 2 == 0, g);
    StageMoves(env, nodes0, st, h, g, at, Checking(at), StepGo(env, st, g).value.nodes[q], Ck);
  }

  /** The first toggle of a node leaves it odd, the second even. */
  lemma ToggleFacts(state: int, k: nat)
    requires 0 <= state <= MAX_INT32 && state % 2 == 0 && k < 2
    ensures Toggle(Bump(state, k)) == (Bump(state, k + 1), k == 0)
  {}

  lemma ToggleStep(env: Env, st: State, g: nat, at: Pos)
    requires g < |st.gs| && st.gs[g] == Toggling(at) && at.level > 0 && Up(at) in st.nodes
    ensures var n := st.nodes[Up(at)];
            StepGo(env, st, g) == Some(st.(nodes := st.nodes[Up(at) := n.(state := Toggle(n.state).0)],
                                           gs := st.gs[g := if Toggle(n.state).1 then Ended else Rechecking(at)]))
  {}

  /** The toggles a node has had from below. */
  function Toggles(a: Option<Edge>, b: Option<Edge>): nat {
    (if Toggled(a) then 1 else 0) + if Toggled(b) then 1 else 0
  }

  lemma ToggleNode(env: Env, p: Pos, n0: Node, n: Node, a: Option<Edge>, b: Option<Edge>, reached: bool, left: bool,
                   g: nat)
    requires NodeOk(env, p, n0, n, a, b, reached) && Is(if left then a else b, Tg) && CleanNode(p, n0)
    ensures var first := Toggles(a, b) == 0;
            var e := Some(Edge(g, if first then First else Rc));
            && Toggle(n.state).1 == first
            && NodeOk(env, p, n0, n.(state := Toggle(n.state).0), if left then e else a, if left then b else e, reached)
  {
    hide Value, Bump, Toggle;
    ToggleFacts(n0.state, Toggles(a, b));
  }

  lemma ToggleKeeps(env: Env, nodes0: map<Pos, Node>, st: State, h: History, g: nat) returns (h': History)
    requires env.depth > 0 && Inv(env, nodes0, st, h) && g < |st.gs| && st.gs[g].Toggling?
    ensures StepGo(env, st, g).Some? && Inv(env, nodes0, StepGo(env, st, g).value, h')
  {
    hide NodesOk, NodeOk, MainOk, IdleFrom, EdgesOk, Value, StepGo, Launched, Leaves, Toggle, CleanNode, Toggled;
    var at := st.gs[g].at;
    assert GoOk(env, h, g, st.gs[g]);
    Around(env, nodes0, st, h, g, at);
    var q := Up(at);
    ChildrenOf(q);
    ToggleNode(env, q, nodes0[q], st.nodes[q], At(h, Left(q)), At(h, Right(q)), q in h, at.index % 2 == 0, g);
    ToggleStep(env, st, g, at);
    var stage := if Toggle(st.nodes[q].state).1 then First else Rc;
    h' := h[at := Edge(g, stage)];
    StageMoves(env, nodes0, st, h, g, at, StepGo(env, st, g).value.gs[g], StepGo(env, st, g).value.nodes[q], stage);
  }

  /** Two stages between which nothing is written. */
  predicate Alike(e: Option<Edge>, e': Option<Edge>) {
    && Written(e) && Written(e') && (Toggled(e) <==> Toggled(e'))
    && (Is(e, First) <==> Is(e', First)) && (Is(e, Passed) <==> Is(e', Passed))
  }

  lemma ReadNode(env: Env, p: Pos, n0: Node, n: Node, a: Option<Edge>, b: Option<Edge>, reached: bool, left: bool,
                 e: Option<Edge>)
    requires NodeOk(env, p, n0, n, a, b, reached) && Alike(if left then a else b, e)
    ensures NodeOk(env, p, n0, n, if left then e else a, if left then b else e, reached)
  {
    hide Value, Bump;
  }

  /** At the second toggle both sides of the node have been written. */
  lemma BothWritten(env: Env, p: Pos, n0: Node, n: Node, a: Option<Edge>, b: Option<Edge>, reached: bool)
    requires NodeOk(env, p, n0, n, a, b, reached)
    ensures !n.unbalanced && n.root == (p.level == 0)
    ensures (Toggled(a) && !Is(a, First)) || (Toggled(b) && !Is(b, First)) ==>
              n.left == Value(env, Left(p)) && n.right == Value(env, Right(p))
  {
    hide Value, Bump;
  }

  lemma ReadStep(env: Env, st: State, g: nat, at: Pos)
    requires g < |st.gs| && Place(st.gs[g]).Some? && Place(st.gs[g]).value.0 == at && at.level > 0 && Up(at) in st.nodes
    requires !st.gs[g].Writing? && !st.gs[g].Toggling? && !st.gs[g].Sending?
    ensures NextGo(env, st.nodes[Up(at)], st.gs[g]).Some?
    ensures StepGo(env, st, g) == Some(st.(gs := st.gs[g := NextGo(env, st.nodes[Up(at)], st.gs[g]).value]))
  {}

  /** What a goroutine reads from a node on which it was second is what is due there. */
  lemma ReadRight(env: Env, n: Node, go: Go, at: Pos)
    requires go.Checking? || go.Rechecking? || go.ReadingLeft? || go.ReadingRight?
    requires go.at == at && at.level > 0 && Up(at).level < env.depth && Carries(env, go) && !n.unbalanced
    requires !go.Checking? ==> n.left == Value(env, Left(Up(at))) && n.right == Value(env, Right(Up(at)))
    ensures var next := NextGo(env, n, go); next.Some? && Carries(env, next.value)
    ensures Place(NextGo(env, n, go).value) == Some((at, if go.Checking? then Tg else if go.Rechecking? then Rl
                                                         else if go.ReadingLeft? then Rr else Rt))
  {
    if go.ReadingRight? {
      ValueAbove(env, Up(at));
    }
    hide Value;
  }

  predicate Looks(go: Go) {
    go.Checking? || go.Rechecking? || go.ReadingLeft? || go.ReadingRight?
  }

  /** What a goroutine becomes by looking at a node, and that the node does not mind. */
  lemma ReadNext(env: Env, p: Pos, n0: Node, n: Node, a: Option<Edge>, b: Option<Edge>, reached: bool, left: bool,
                 go: Go, g: nat) returns (stage: Stage)
    requires NodeOk(env, p, n0, n, a, b, reached) && Looks(go) && Carries(env, go) && p.level < env.depth
    requires go.at.level > 0 && Up(go.at) == p && (if left then a else b) == Some(Edge(g, Place(go).value.1))
    ensures var next := NextGo(env, n, go);
            next.Some? && Carries(env, next.value) && Place(next.value) == Some((go.at, stage)) && !next.value.Sending?
    ensures stage != Passed
    ensures var e := Some(Edge(g, stage)); NodeOk(env, p, n0, n, if left then e else a, if left then b else e, reached)
  {
    hide NodeOk, Value, NextGo, Carries, Up;
    BothWritten(env, p, n0, n, a, b, reached);
    ReadRight(env, n, go, go.at);
    stage := Place(NextGo(env, n, go).value).value.1;
    ReadNode(env, p, n0, n, a, b, reached, left, Some(Edge(g, stage)));
  }

  /** Looking at a node changes nothing. */
  lemma ReadKeeps(env: Env, nodes0: map<Pos, Node>, st: State, h: History, g: nat) returns (h': History)
    requires env.depth > 0 && Inv(env, nodes0, st, h) && g < |st.gs| && Looks(st.gs[g])
    ensures StepGo(env, st, g).Some? && Inv(env, nodes0, StepGo(env, st, g).value, h')
  {
    hide Inv, NodeOk, Value, StepGo, CleanNode, NextGo, Carries, Left, Right;
    var go := st.gs[g];
    var at := go.at;
    GoAt(env, nodes0, st, h, g);
    Around(env, nodes0, st, h, g, at);
    var q := Up(at);
    ChildrenOf(q);
    var n := st.nodes[q];
    var stage := ReadNext(env, q, nodes0[q], n, At(h, Left(q)), At(h, Right(q)), q in h, at.index % 2 == 0, go, g);
    ReadStep(env, st, g, at);
    h' := h[at := Edge(g, stage)];
    StageMoves(env, nodes0, st, h, g, at, NextGo(env, n, go).value, n, stage);
    assert st.nodes[q := n] == st.nodes;
  }

  lemma GoAt(env: Env, nodes0: map<Pos, Node>, st: State, h: History, g: nat)
    requires Inv(env, nodes0, st, h) && g < |st.gs|
    ensures GoOk(env, h, g, st.gs[g])
  {
    AtGo(env, st.gs, h, g);
  }

  /** The goroutine from `at` passes its node and reaches the node's own position. */
  lemma ClimbNodes(env: Env, nodes0: map<Pos, Node>, nodes: map<Pos, Node>, h: History, at: Pos, g: nat)
    requires NodesOk(env, nodes0, nodes, h) && at.level > 0 && At(h, at) == Some(Edge(g, Rt)) && IsNode(env, Up(at))
    requires (at == Left(Up(at)) || at == Right(Up(at))) && Up(at) != at
    ensures Up(at) !in h && NodesOk(env, nodes0, nodes, h[at := Edge(g, Passed)][Up(at) := Edge(g, Wr)])
  {
    hide NodeOk, Clean, IsNode, Up, Left, Right, LeavesOk;
    var q := Up(at);
    var h' := h[at := Edge(g, Passed)][q := Edge(g, Wr)];
    ChildrenOf(q);
    ClimbNode(env, q, nodes0[q], nodes[q], At(h, Left(q)), At(h, Right(q)), q in h, at == Left(q), g);
    forall p | IsNode(env, p) ensures NodeOk(env, p, nodes0[p], nodes[p], At(h', Left(p)), At(h', Right(p)), p in h') {
      ChildrenOf(p);
      if p != q {
        ReachNode(env, p, nodes0[p], nodes[p], At(h, Left(p)), At(h, Right(p)), p in h, At(h', Left(p)), At(h',
            Right(p)));
      }
    }
  }

  /** The node that is passed. */
  lemma ClimbNode(env: Env, p: Pos, n0: Node, n: Node, a: Option<Edge>, b: Option<Edge>, reached: bool, left: bool,
                  g: nat)
    requires NodeOk(env, p, n0, n, a, b, reached) && (if left then a else b) == Some(Edge(g, Rt))
    ensures !reached
    ensures var e := Some(Edge(g, Passed)); NodeOk(env, p, n0, n, if left then e else a, if left then b else e, true)
  {
    hide Value, Bump;
  }

  /** A position below the node that has just been reached, and not yet written from. */
  lemma ReachNode(env: Env, p: Pos, n0: Node, n: Node, a: Option<Edge>, b: Option<Edge>, reached: bool,
                  a': Option<Edge>, b': Option<Edge>)
    requires NodeOk(env, p, n0, n, a, b, reached)
    requires (a' == a || (a == None && Is(a', Wr))) && (b' == b || (b == None && Is(b', Wr)))
    ensures NodeOk(env, p, n0, n, a', b', reached)
  {
    hide Value, Bump;
  }

  lemma ClimbGos(env: Env, gs: seq<Go>, gs': seq<Go>, launched: nat, h: History, g: nat, at: Pos)
    requires GosOk(env, gs, h) && IdleFrom(gs, launched) && EdgesOk(env, gs, h)
    requires g < |gs| && gs[g].ReadingRoot? && gs[g].at == at && at.level > 0 && IsNode(env, Up(at)) && Up(at) !in h
    requires var s := Value(env, Up(at));
             gs' == gs[g := if at.level == 1 then Sending(s) else Writing(Up(at), s)]
    ensures var h' := h[at := Edge(g, Passed)][Up(at) := Edge(g, Wr)];
            GosOk(env, gs', h') && IdleFrom(gs', launched) && EdgesOk(env, gs', h')
  {
    hide Value, IdleFrom, EdgesOk, Leaves;
    var h' := h[at := Edge(g, Passed)][Up(at) := Edge(g, Wr)];
    assert GoOk(env, h, g, gs[g]);
    assert EdgeOk(env, gs, at, h[at]) by { AtEdge(env, gs, h, at); }
    assert at.level == 1 ==> Up(at) == Root;
    GoMoves(env, gs, gs', launched, h, h', g, at);
  }

  lemma AtGo(env: Env, gs: seq<Go>, h: History, g: nat)
    requires GosOk(env, gs, h) && g < |gs|
    ensures GoOk(env, h, g, gs[g])
  {}

  lemma AtEdge(env: Env, gs: seq<Go>, h: History, p: Pos)
    requires EdgesOk(env, gs, h) && p in h
    ensures EdgeOk(env, gs, p, h[p])
  {}

  lemma RootStep(env: Env, n: Node, at: Pos, s: Bytes)
    requires at.level > 0 && n.root == (at.level == 1)
    ensures NextGo(env, n, ReadingRoot(at, s)) == Some(if at.level == 1 then Sending(s) else Writing(Up(at), s))
  {}

  lemma ReadRootKeeps(env: Env, nodes0: map<Pos, Node>, st: State, h: History, g: nat) returns (h': History)
    requires env.depth > 0 && Inv(env, nodes0, st, h) && g < |st.gs| && st.gs[g].ReadingRoot?
    ensures StepGo(env, st, g).Some? && Inv(env, nodes0, StepGo(env, st, g).value, h')
  {
    hide NodesOk, NodeOk, GosOk, MainOk, IdleFrom, EdgesOk, Value, StepGo, Launched, Leaves, NextGo;
    var at := st.gs[g].at;
    AtGo(env, st.gs, h, g);
    Around(env, nodes0, st, h, g, at);
    var q := Up(at);
    ChildrenOf(q);
    BothWritten(env, q, nodes0[q], st.nodes[q], At(h, Left(q)), At(h, Right(q)), q in h);
    ClimbNodes(env, nodes0, st.nodes, h, at, g);
    ReadStep(env, st, g, at);
    RootStep(env, st.nodes[q], at, st.gs[g].s);
    h' := h[at := Edge(g, Passed)][q := Edge(g, Wr)];
    ClimbGos(env, st.gs, StepGo(env, st, g).value.gs, Launched(env, st.main), h, g, at);
    MainKept(env, st.main, st.sent, At(h, Root), At(h', Root));
  }

  lemma MainKept(env: Env, main: Main, sent: seq<Bytes>, r: Option<Edge>, r': Option<Edge>)
    requires MainOk(env, main, sent, r) && (Is(r, Passed) <==> Is(r', Passed))
    ensures MainOk(env, main, sent, r')
  {}

  lemma SendKeeps(env: Env, nodes0: map<Pos, Node>, st: State, h: History, g: nat) returns (h': History)
    requires env.depth > 0 && Inv(env, nodes0, st, h) && g < |st.gs| && st.gs[g].Sending? && st.main == Waiting
    ensures StepGo(env, st, g).Some? && Inv(env, nodes0, StepGo(env, st, g).value, h')
  {
    hide NodesOk, IdleFrom, EdgesOk, Value, Leaves;
    assert GoOk(env, h, g, st.gs[g]);
    h' := h[Root := Edge(g, Passed)];
    GoMoves(env, st.gs, StepGo(env, st, g).value.gs, Launched(env, st.main), h, h', g, Root);
    RootPassed(env, nodes0, st.nodes, h, g);
  }

  lemma RootPassed(env: Env, nodes0: map<Pos, Node>, nodes: map<Pos, Node>, h: History, g: nat)
    requires NodesOk(env, nodes0, nodes, h) && Root in h
    ensures NodesOk(env, nodes0, nodes, h[Root := Edge(g, Passed)])
  {
    hide NodeOk, Clean;
    var h' := h[Root := Edge(g, Passed)];
    forall p | IsNode(env, p) ensures NodeOk(env, p, nodes0[p], nodes[p], At(h', Left(p)), At(h', Right(p)), p in h') {
      assert Left(p) != Root && Right(p) != Root;
    }
  }

  // ---------- the main thread ----------

  /** Starting an idle goroutine. */
  lemma StartGos(env: Env, gs: seq<Go>, h: History, i: nat)
    requires GosOk(env, gs, h) && IdleFrom(gs, i) && EdgesOk(env, gs, h) && i < |gs|
    ensures var gs' := gs[i := Started]; GosOk(env, gs', h) && IdleFrom(gs', i + 1) && EdgesOk(env, gs', h)
  {
    hide Value;
    var gs' := gs[i := Started];
    forall g | 0 <= g < |gs'| ensures GoOk(env, h, g, gs'[g]) {
      assert GoOk(env, h, g, gs[g]);
    }
    forall p | p in h ensures EdgeOk(env, gs', p, h[p]) {
      assert EdgeOk(env, gs, p, h[p]);
    }
  }

  lemma LaunchStep(env: Env, st: State)
    requires st.main.Launching? && env.depth > 0 && |st.gs| == Leaves(env)
    ensures var i := st.main.next;
            StepMain(env, st) == Some(
              if i + 1 < Leaves(env) then st.(gs := st.gs[i := Started], main := Launching(i + 1))
              else st.(main := FinalUnbalanced(env.depth - 1)))
  {}

  lemma LaunchKeeps(env: Env, nodes0: map<Pos, Node>, st: State, h: History)
    requires env.depth > 0 && Inv(env, nodes0, st, h) && st.main.Launching?
    ensures StepMain(env, st).Some? && Inv(env, nodes0, StepMain(env, st).value, h)
  {
    hide NodesOk, EdgesOk, Value, StepMain, IdleFrom, GoOk;
    LaunchStep(env, st);
    var i := st.main.next;
    if i + 1 < Leaves(env) {
      StartGos(env, st.gs, h, i);
    }
  }

  /** While the last goroutine is idle nothing has got to the final segment's path. */
  lemma {:induction false} SpineUntouched(env: Env, nodes0: map<Pos, Node>, nodes: map<Pos, Node>, h: History,
                                          level: nat)
    requires level <= env.depth && NodesOk(env, nodes0, nodes, h) && Spine(env.depth) !in h
    ensures Spine(level) !in h
    decreases env.depth - level
  {
    hide NodesOk, NodeOk, CleanNode, Spine, IsNode, Left, Right;
    if level < env.depth {
      SpineUntouched(env, nodes0, nodes, h, level + 1);
      var p := Spine(level);
      SpineNode(env, level);
      AtNode(env, nodes0, nodes, h, p);
      OneSided(env, p, nodes0[p], nodes[p], At(h, Left(p)), p in h);
    }
  }

  /** A node is not passed before both sides have come. */
  lemma OneSided(env: Env, p: Pos, n0: Node, n: Node, a: Option<Edge>, reached: bool)
    requires NodeOk(env, p, n0, n, a, None, reached)
    ensures !reached
  {
    hide Value, Bump;
  }

  /** A node's own value written back, or its unwritten right side cleared. */
  lemma PutNode(env: Env, nodes0: map<Pos, Node>, nodes: map<Pos, Node>, h: History, p: Pos, n: Node)
    requires NodesOk(env, nodes0, nodes, h) && IsNode(env, p)
    requires p in nodes && n == nodes[p].(right := n.right) && (n.right == nodes[p].right || Right(p) !in h)
    ensures NodesOk(env, nodes0, nodes[p := n], h)
  {
    hide Value, Clean, Bump;
    assert NodeOk(env, p, nodes0[p], nodes[p], At(h, Left(p)), At(h, Right(p)), p in h);
  }

  lemma SpineNode(env: Env, level: nat)
    requires level < env.depth
    ensures IsNode(env, Spine(level)) && Right(Spine(level)) == Spine(level + 1) && Spine(0) == Root
    ensures (Pow2(level + 1) - 1) % 2 == 1 && (Spine(level) == Root <==> level == 0)
  {
    PowUp(level);
    hide Pow2;
    OddBelow(Pow2(level));
  }

  lemma PowUp(n: nat)
    ensures Pow2(n + 1) == 2 * Pow2(n) && Pow2(0) == 1
  {}

  lemma OddBelow(p: nat)
    requires p > 0
    ensures (2 * p - 1) % 2 == 1
  {}

  lemma IdleLast(env: Env, gs: seq<Go>, h: History)
    requires GosOk(env, gs, h) && IdleFrom(gs, Leaves(env) - 1)
    ensures Spine(env.depth) !in h
  {
    var g := Leaves(env) - 1;
    assert GoOk(env, h, g, gs[g]);
  }

  lemma FinaliseKeeps(env: Env, nodes0: map<Pos, Node>, st: State, h: History)
    requires env.depth > 0 && Inv(env, nodes0, st, h)
    requires st.main.FinalUnbalanced? || st.main.FinalRight? || st.main.FinalRoot?
    ensures StepMain(env, st).Some? && Inv(env, nodes0, StepMain(env, st).value, h)
  {
    hide NodesOk, EdgesOk, Value, IdleFrom, GosOk, IsNode, Spine, Right, Pow2;
    IdleLast(env, st.gs, h);
    var level := if st.main.FinalRoot? then 0 else st.main.level;
    var p := Spine(level);
    SpineNode(env, level);
    SpineUntouched(env, nodes0, st.nodes, h, level + 1);
    RootFlag(env, nodes0, st.nodes, h, p);
    SpineNode(env, 0);
    PutNode(env, nodes0, st.nodes, h, p, if st.main.FinalRight? then st.nodes[p].(right := []) else st.nodes[p]);
  }

  lemma RootFlag(env: Env, nodes0: map<Pos, Node>, nodes: map<Pos, Node>, h: History, p: Pos)
    requires NodesOk(env, nodes0, nodes, h) && IsNode(env, p)
    ensures p in nodes && nodes[p].root == (p.level == 0) && !nodes[p].unbalanced
  {
    assert NodeOk(env, p, nodes0[p], nodes[p], At(h, Left(p)), At(h, Right(p)), p in h);
  }

  lemma LaunchLastKeeps(env: Env, nodes0: map<Pos, Node>, st: State, h: History)
    requires env.depth > 0 && Inv(env, nodes0, st, h) && st.main == LaunchingLast
    ensures StepMain(env, st).Some? && Inv(env, nodes0, StepMain(env, st).value, h)
  {
    hide NodesOk, EdgesOk, Value, IdleFrom, GoOk;
    StartGos(env, st.gs, h, Leaves(env) - 1);
  }

  /** Clearing the flags of the last leaf. */
  lemma ClearLeaf(env: Env, nodes0: map<Pos, Node>, nodes: map<Pos, Node>, h: History, p: Pos, n: Node)
    requires NodesOk(env, nodes0, nodes, h) && p.level == env.depth && !n.root
    ensures NodesOk(env, nodes0, nodes[p := n], h)
  {
    hide NodeOk, Clean;
  }

  lemma ReleaseKeeps(env: Env, nodes0: map<Pos, Node>, st: State, h: History)
    requires env.depth > 0 && Inv(env, nodes0, st, h) && (st.main.ReleaseUnbalanced? || st.main.ReleaseRoot?)
    ensures StepMain(env, st).Some? && Inv(env, nodes0, StepMain(env, st).value, h)
  {
    hide NodesOk, EdgesOk, Value, IdleFrom, GosOk, IsNode, Right, LeavesOk;
    var level := st.main.level;
    var p := Spine(level);
    LeavesThere(env, nodes0, st.nodes, h);
    if level < env.depth {
      SpineNode(env, level);
      RootFlag(env, nodes0, st.nodes, h, p);
      PutNode(env, nodes0, st.nodes, h, p, st.nodes[p]);
    } else {
      LastLeaf(env, st.nodes);
      ClearLeaf(env, nodes0, st.nodes, h, p, StepMain(env, st).value.nodes[p]);
    }
  }

  lemma LastLeaf(env: Env, nodes: map<Pos, Node>)
    requires LeavesOk(env, nodes)
    ensures Spine(env.depth) in nodes && !nodes[Spine(env.depth)].root
  {}

  /** Every step, of whichever goroutine, keeps the invariant. */
  lemma StepKeeps(env: Env, nodes0: map<Pos, Node>, st: State, h: History, ev: Event) returns (h': History)
    requires env.depth > 0 && Inv(env, nodes0, st, h) && Step(env, st, ev).Some?
    ensures Inv(env, nodes0, Step(env, st, ev).value, h')
  {
    hide Inv, Value;
    h' := h;
    match ev
    case MainStep =>
      match st.main {
      case Launching(_) => LaunchKeeps(env, nodes0, st, h);
      case LaunchingLast => LaunchLastKeeps(env, nodes0, st, h);
      case ReleaseUnbalanced(_, _) => ReleaseKeeps(env, nodes0, st, h);
      case ReleaseRoot(_, _) => ReleaseKeeps(env, nodes0, st, h);
      case _ => FinaliseKeeps(env, nodes0, st, h);
      }
    case GoStep(g) =>
      match st.gs[g]
      case Started => h' := StartKeeps(env, nodes0, st, h, g);
      case Writing(_, _) => h' := WriteKeeps(env, nodes0, st, h, g);
      case Toggling(_) => h' := ToggleKeeps(env, nodes0, st, h, g);
      case ReadingRoot(_, _) => h' := ReadRootKeeps(env, nodes0, st, h, g);
      case Sending(_) => h' := SendKeeps(env, nodes0, st, h, g);
      case _ => h' := ReadKeeps(env, nodes0, st, h, g);
  }

  // ---------- whole runs ----------

  /** The state after a run, if every event of it was enabled in its turn. */
  function Exec(env: Env, st: State, evs: seq<Event>): Option<State>
    decreases |evs|
  {
    if evs == [] then Some(st)
    else
      match Step(env, st, evs[0])
      case None => None
      case Some(next) => Exec(env, next, evs[1..])
  }

  lemma {:induction false} ExecKeeps(env: Env, nodes0: map<Pos, Node>, st: State, h: History,
                                     evs: seq<Event>) returns (h': History)
    requires env.depth > 0 && Inv(env, nodes0, st, h) && Exec(env, st, evs).Some?
    ensures Inv(env, nodes0, Exec(env, st, evs).value, h')
    decreases |evs|
  {
    hide Inv, Step;
    h' := h;
    if evs != [] {
      h' := StepKeeps(env, nodes0, st, h, evs[0]);
      h' := ExecKeeps(env, nodes0, Step(env, st, evs[0]).value, h', evs[1..]);
    }
  }

  // ---------- runs end ----------

  /** How many more steps a goroutine can take, at most. */
  function Rank(env: Env, go: Go): nat {
    match go
    case Idle => 7 * env.depth + 8
    case Started => 7 * env.depth + 7
    case Writing(at, _) => 7 * at.level + 6
    case Checking(at) => 7 * at.level + 5
    case Toggling(at) => 7 * at.level + 4
    case Rechecking(at) => 7 * at.level + 3
    case ReadingLeft(at, _) => 7 * at.level + 2
    case ReadingRight(at, _, _) => 7 * at.level + 1
    case ReadingRoot(at, _) => 7 * at.level
    case Sending(_) => 1
    case Ended => 0
  }

  function Ranks(env: Env, gs: seq<Go>): nat {
    if gs == [] then 0 else Rank(env, gs[0]) + Ranks(env, gs[1..])
  }

  function MainRank(env: Env, main: Main): nat {
    match main
    case Launching(i) => (if i < Leaves(env) then Leaves(env) - i else 0) + 4 * env.depth + 7
    case FinalUnbalanced(level) => 2 * env.depth + 2 * level + 8
    case FinalRight(level) => 2 * env.depth + 2 * level + 7
    case FinalRoot => 2 * env.depth + 6
    case LaunchingLast => 2 * env.depth + 5
    case Waiting => 2 * env.depth + 4
    case ReleaseUnbalanced(_, level) => 2 * level + 3
    case ReleaseRoot(_, level) => 2 * level + 2
    case Released => 1
  }

  function Measure(env: Env, st: State): nat {
    MainRank(env, st.main) + Ranks(env, st.gs)
  }

  lemma {:induction false} RanksAt(env: Env, gs: seq<Go>, g: nat, go: Go)
    requires g < |gs|
    ensures Ranks(env, gs[g := go]) == Ranks(env, gs) - Rank(env, gs[g]) + Rank(env, go)
  {
    if g > 0 {
      assert gs[g := go][1..] == gs[1..][g - 1 := go];
      RanksAt(env, gs[1..], g - 1, go);
    } else {
      assert gs[g := go][1..] == gs[1..];
    }
  }

  lemma MainDescends(env: Env, st: State)
    requires StepMain(env, st).Some? && (st.main.Launching? ==> st.main.next < Leaves(env))
    requires |st.gs| == Leaves(env) && IdleFrom(st.gs, Launched(env, st.main))
    ensures Measure(env, StepMain(env, st).value) < Measure(env, st)
  {
    hide Ranks, Pow2;
    match st.main
    case Launching(i) => RanksAt(env, st.gs, i, Started);
    case LaunchingLast => RanksAt(env, st.gs, |st.gs| - 1, Started);
    case _ =>
  }

  lemma GoDescends(env: Env, st: State, g: nat)
    requires g < |st.gs| && StepGo(env, st, g).Some?
    ensures Measure(env, StepGo(env, st, g).value) < Measure(env, st)
  {
    hide Ranks, Rank, StepGo, MainRank;
    GoRank(env, st, g);
    RanksAt(env, st.gs, g, StepGo(env, st, g).value.gs[g]);
  }

  lemma GoRank(env: Env, st: State, g: nat)
    requires g < |st.gs| && StepGo(env, st, g).Some?
    ensures var st' := StepGo(env, st, g).value;
            && |st'.gs| == |st.gs| && st'.gs == st.gs[g := st'.gs[g]] && Rank(env, st'.gs[g]) < Rank(env, st.gs[g])
            && MainRank(env, st'.main) <= MainRank(env, st.main)
  {
    hide Leaves, Segment, Toggle;
  }

  lemma InvDescends(env: Env, nodes0: map<Pos, Node>, st: State, h: History, ev: Event)
    requires Inv(env, nodes0, st, h) && Step(env, st, ev).Some?
    ensures Measure(env, Step(env, st, ev).value) < Measure(env, st)
  {
    hide StepMain, StepGo, Measure, NodesOk, EdgesOk, GoOk;
    match ev
    case MainStep => MainDescends(env, st);
    case GoStep(g) => GoDescends(env, st, g);
  }

  lemma {:induction false} ExecShort(env: Env, nodes0: map<Pos, Node>, st: State, h: History, evs: seq<Event>)
    requires env.depth > 0 && Inv(env, nodes0, st, h) && Exec(env, st, evs).Some?
    ensures |evs| <= Measure(env, st)
    decreases |evs|
  {
    hide Inv, Step, Measure;
    if evs != [] {
      InvDescends(env, nodes0, st, h, evs[0]);
      var h' := StepKeeps(env, nodes0, st, h, evs[0]);
      ExecShort(env, nodes0, Step(env, st, evs[0]).value, h', evs[1..]);
    }
  }

  // ---------- a state in which nothing can move ----------

  ghost predicate Stuck(env: Env, st: State) {
    forall ev :: Step(env, st, ev) == None
  }

  lemma StuckMain(env: Env, nodes0: map<Pos, Node>, st: State, h: History)
    requires env.depth > 0 && Inv(env, nodes0, st, h) && Stuck(env, st)
    ensures st.main == Waiting || st.main == Released
  {
    hide Inv, StepMain;
    assert Step(env, st, MainStep) == None;
    match st.main
    case Launching(_) => LaunchKeeps(env, nodes0, st, h);
    case LaunchingLast => LaunchLastKeeps(env, nodes0, st, h);
    case ReleaseUnbalanced(_, _) => ReleaseKeeps(env, nodes0, st, h);
    case ReleaseRoot(_, _) => ReleaseKeeps(env, nodes0, st, h);
    case Waiting =>
    case Released =>
    case _ => FinaliseKeeps(env, nodes0, st, h);
  }

  lemma StuckGo(env: Env, nodes0: map<Pos, Node>, st: State, h: History, g: nat)
    requires env.depth > 0 && Inv(env, nodes0, st, h) && Stuck(env, st) && g < |st.gs|
    ensures st.gs[g] == Ended
  {
    hide NodesOk, EdgesOk, Value, StepMain, StepGo;
    StuckMain(env, nodes0, st, h);
    assert Step(env, st, GoStep(g)) == None;
    assert GoOk(env, h, g, st.gs[g]);
    match st.gs[g]
    case Idle =>
    case Ended =>
    case Started => var _ := StartKeeps(env, nodes0, st, h, g);
    case Writing(_, _) => var _ := WriteKeeps(env, nodes0, st, h, g);
    case Toggling(_) => var _ := ToggleKeeps(env, nodes0, st, h, g);
    case ReadingRoot(_, _) => var _ := ReadRootKeeps(env, nodes0, st, h, g);
    case Sending(_) =>
      if st.main == Waiting {
        var _ := SendKeeps(env, nodes0, st, h, g);
      }
    case _ => var _ := ReadKeeps(env, nodes0, st, h, g);
  }

  /** Once every goroutine has ended, every position has been reached and left. */
  lemma {:induction false} AllReached(env: Env, nodes0: map<Pos, Node>, st: State, h: History, p: Pos)
    requires Inv(env, nodes0, st, h) && (forall g | 0 <= g < |st.gs| :: st.gs[g] == Ended) && IsEdge(env, p)
    ensures Is(At(h, p), First) || Is(At(h, p), Passed)
    decreases env.depth - p.level
  {
    hide Value, Bump, NodesOk, EdgesOk, MainOk, CleanNode;
    if p.level == env.depth {
      assert GoOk(env, h, p.index, st.gs[p.index]);
    } else {
      AllReached(env, nodes0, st, h, Left(p));
      AllReached(env, nodes0, st, h, Right(p));
      BothLeft(env, nodes0, st.nodes, h, p);
    }
    AtEdge(env, st.gs, h, p);
    assert EdgeOk(env, st.gs, p, h[p]);
  }

  /** A node both of whose sides have been left has been toggled twice and passed. */
  lemma BothLeft(env: Env, nodes0: map<Pos, Node>, nodes: map<Pos, Node>, h: History, p: Pos)
    requires NodesOk(env, nodes0, nodes, h) && IsNode(env, p)
    requires Is(At(h, Left(p)), First) || Is(At(h, Left(p)), Passed)
    requires Is(At(h, Right(p)), First) || Is(At(h, Right(p)), Passed)
    ensures p in h && p in nodes0 && CleanNode(p, nodes0[p]) && p in nodes
    ensures var n := nodes[p]; n.state == Bump(nodes0[p].state, 2) && !n.unbalanced && n.root == (p.level == 0)
  {
    hide Value, Bump;
    assert NodeOk(env, p, nodes0[p], nodes[p], At(h, Left(p)), At(h, Right(p)), p in h);
  }

  lemma StuckReleased(env: Env, nodes0: map<Pos, Node>, st: State, h: History)
    requires env.depth > 0 && Inv(env, nodes0, st, h) && Stuck(env, st)
    ensures st.main == Released && st.sent == [Value(env, Root)] && forall g | 0 <= g < |st.gs| :: st.gs[g] == Ended
  {
    hide NodesOk, Value, Stuck, GosOk, EdgeOk;
    StuckMain(env, nodes0, st, h);
    forall g | 0 <= g < |st.gs| ensures st.gs[g] == Ended {
      StuckGo(env, nodes0, st, h, g);
    }
    AllReached(env, nodes0, st, h, Root);
    AtEdge(env, st.gs, h, Root);
    NotFirst(env, st.gs, h[Root]);
  }

  lemma NotFirst(env: Env, gs: seq<Go>, e: Edge)
    requires EdgeOk(env, gs, Root, e)
    ensures e.stage != First
  {}

  lemma StuckNode(env: Env, nodes0: map<Pos, Node>, st: State, h: History, p: Pos)
    requires env.depth > 0 && Inv(env, nodes0, st, h) && Stuck(env, st) && IsNode(env, p)
    ensures p in nodes0 && CleanNode(p, nodes0[p]) && p in st.nodes
    ensures var n := st.nodes[p]; n.state == Bump(nodes0[p].state, 2) && !n.unbalanced && n.root == (p.level == 0)
  {
    hide Value, Stuck, GosOk, EdgesOk, Bump, NodesOk, CleanNode;
    StuckReleased(env, nodes0, st, h);
    AllReached(env, nodes0, st, h, Left(p));
    AllReached(env, nodes0, st, h, Right(p));
    BothLeft(env, nodes0, st.nodes, h, p);
  }

  // ---------- the theorems ----------

  /** How much of the chunk lies below a position of a level, and where it starts. */
  function Width(env: Env, level: nat): nat
    requires level <= env.depth
  {
    Pow2(env.depth - level + 1) * env.size
  }

  function Offset(env: Env, p: Pos): nat
    requires p.level <= env.depth
  {
    p.index * Width(env, p.level)
  }

  lemma OffsetBelow(env: Env, p: Pos)
    requires p.level < env.depth
    ensures var half := Width(env, p.level + 1);
            && Width(env, p.level) == 2 * half
            && Offset(env, Left(p)) == Offset(env, p) && Offset(env, Right(p)) == Offset(env, p) + half
  {
    var pow := Pow2(env.depth - p.level);
    var half := pow * env.size;
    assert Pow2(env.depth - p.level + 1) == 2 * pow && (2 * pow) * env.size == 2 * half;
    Doubled(p.index, half);
  }

  lemma Doubled(i: nat, half: nat)
    ensures i * (2 * half) == (2 * i) * half && (2 * i + 1) * half == (2 * i) * half + half
  {}

  lemma LeafValue(env: Env, p: Pos)
    requires p.level == env.depth && Offset(env, p) + Width(env, p.level) <= |env.chunk|
    ensures Value(env, p) == env.hash(env.chunk[Offset(env, p)..Offset(env, p) + Width(env, p.level)])
  {
    assert Pow2(1) == 2;
    assert (p.index + 1) * (2 * env.size) == p.index * (2 * env.size) + 2 * env.size;
  }

  lemma MerkleOf(hash: Bytes -> Bytes, c: Bytes, lo: nat, half: nat, k: nat)
    requires k > 0 && lo + 2 * half <= |c|
    ensures Merkle(hash, c[lo..lo + 2 * half], k)
         == hash(Merkle(hash, c[lo..lo + half], k - 1) + Merkle(hash, c[lo + half..lo + 2 * half], k - 1))
  {
    var d := c[lo..lo + 2 * half];
    assert d[..half] == c[lo..lo + half] && d[half..] == c[lo + half..lo + 2 * half];
  }

  lemma LeafMerkle(hash: Bytes -> Bytes, d: Bytes)
    ensures Merkle(hash, d, 0) == hash(d)
  {}

  lemma ValueAbove(env: Env, p: Pos)
    requires p.level < env.depth
    ensures Value(env, p) == env.hash(Value(env, Left(p)) + Value(env, Right(p)))
  {}

  /** The value at a position is the Merkle hash of the part of the chunk below it. */
  lemma {:induction false} ValueIsMerkle(env: Env, p: Pos)
    requires p.level <= env.depth && Offset(env, p) + Width(env, p.level) <= |env.chunk|
    ensures Value(env, p) == Merkle(env.hash, env.chunk[Offset(env, p)..Offset(env, p) + Width(env, p.level)],
            env.depth - p.level)
    decreases env.depth - p.level
  {
    hide Offset, Width, Segment, Merkle, Value;
    if p.level == env.depth {
      LeafValue(env, p);
      LeafMerkle(env.hash, env.chunk[Offset(env, p)..Offset(env, p) + Width(env, p.level)]);
    } else {
      OffsetBelow(env, p);
      ValueIsMerkle(env, Left(p));
      ValueIsMerkle(env, Right(p));
      ValueAbove(env, p);
      MerkleOf(env.hash, env.chunk, Offset(env, p), Width(env, p.level + 1), env.depth - p.level);
    }
  }

  /** In every run, in any order of the goroutines' steps: at most one result is sent, and it is the
      reference hash of the chunk. */
  lemma EveryRunIsSafe(env: Env, st: State, evs: seq<Event>)
    requires Full(env) && Initial(env, st) && Exec(env, st, evs).Some?
    ensures var sent := Exec(env, st, evs).value.sent; sent == [] || sent == [Reference(env)]
    ensures |evs| <= Measure(env, st)
  {
    hide Exec, Step, Measure, Reference;
    InitialInv(env, st);
    var h := ExecKeeps(env, st.nodes, st, map[], evs);
    ExecShort(env, st.nodes, st, map[], evs);
    RootIsReference(env);
  }

  lemma RootIsReference(env: Env)
    requires Full(env)
    ensures Value(env, Root) == Reference(env)
  {
    ReferenceIsMerkle(env);
    ValueIsMerkle(env, Root);
    assert env.chunk[0..|env.chunk|] == env.chunk;
  }

  /** A run that cannot be continued has sent exactly the reference hash, every goroutine has ended, and each
      node is as it was but for two more toggles. */
  lemma EveryRunDelivers(env: Env, st: State, evs: seq<Event>)
    requires Full(env) && Initial(env, st) && Exec(env, st, evs).Some? && Stuck(env, Exec(env, st, evs).value)
    ensures var end := Exec(env, st, evs).value;
            && end.sent == [Reference(env)] && end.main == Released
            && (forall g | 0 <= g < |end.gs| :: end.gs[g] == Ended)
            && (forall p | IsNode(env, p) ::
                  p in end.nodes && p in st.nodes && end.nodes[p].state == Bump(st.nodes[p].state, 2))
            && (Clean(env, end.nodes) <==> forall p | IsNode(env, p) :: st.nodes[p].state + 2 <= MAX_INT32)
  {
    hide Exec, Step, Stuck, Reference, Value, GosOk, EdgesOk, NodesOk, MainOk;
    InitialInv(env, st);
    var end := Exec(env, st, evs).value;
    var h := ExecKeeps(env, st.nodes, st, map[], evs);
    StuckReleased(env, st.nodes, end, h);
    RootIsReference(env);
    forall p | IsNode(env, p)
      ensures p in end.nodes && p in st.nodes && end.nodes[p].state == Bump(st.nodes[p].state, 2)
      ensures CleanNode(p, end.nodes[p]) <==> st.nodes[p].state + 2 <= MAX_INT32
    {
      StuckNode(env, st.nodes, end, h, p);
    }
    LeavesThere(env, st.nodes, end.nodes, h);
  }

  /** The toggle tells the first of two from the second, on an even value, exactly while the value is not
      negative: after the 32-bit counter has wrapped every toggle claims to be the second. */
  lemma ToggleWraps(state: int)
    requires -MAX_INT32 - 1 <= state <= MAX_INT32 && state % 2 == 0
    ensures Toggle(state).1 <==> state >= 0
    ensures !Toggle(Toggle(state).0).1
  {}

  // ---------- a tree whose counters have wrapped ----------

  /** As a clean tree, but every counter has wrapped. */
  ghost predicate Wrapped(env: Env, nodes: map<Pos, Node>) {
    LeavesOk(env, nodes) && forall p | IsNode(env, p) :: p in nodes && WrappedNode(p, nodes[p])
  }

  predicate WrappedNode(p: Pos, n: Node) {
    -MAX_INT32 - 1 <= n.state < 0 && n.state % 2 == 0 && !n.unbalanced && n.root == (p.level == 0)
  }

  /** What the first goroutine makes of its value, climbing from a level on the values the right sides still have
      from the chunk before. */
  function Stale(env: Env, nodes: map<Pos, Node>, level: nat, s: Bytes): Bytes
    requires forall k | 0 <= k < level :: Pos(k, 0) in nodes
  {
    if level == 0 then s
    else Stale(env, nodes, level - 1, env.hash(s + nodes[Pos(level - 1, 0)].right))
  }

  lemma {:induction false} ExecBoth(env: Env, st: State, a: seq<Event>, b: seq<Event>)
    requires Exec(env, st, a).Some?
    ensures Exec(env, st, a + b) == Exec(env, Exec(env, st, a).value, b)
    decreases |a|
  {
    hide Step;
    if a == [] {
      assert a + b == b;
    } else {
      ExecBoth(env, Step(env, st, a[0]).value, a[1..], b);
      assert (a + b)[1..] == a[1..] + b;
    }
  }

  lemma ExecOne(env: Env, st: State, ev: Event)
    ensures Exec(env, st, [ev]) == Step(env, st, ev)
  {
    hide Step;
    if Step(env, st, ev).Some? {
      assert Exec(env, Step(env, st, ev).value, [ev][1..]) == Step(env, st, ev);
    }
  }

  /** The first goroutine alone on a wrapped node: it takes itself for the second and goes on. */
  lemma Overtakes(env: Env, st: State, k: nat, s: Bytes) returns (evs: seq<Event>, st': State)
    requires |st.gs| > 0 && st.gs[0] == Writing(Pos(k + 1, 0), s) && Pos(k, 0) in st.nodes
    requires WrappedNode(Pos(k, 0), st.nodes[Pos(k, 0)])
    ensures Exec(env, st, evs) == Some(st')
    ensures var next := env.hash(s + st.nodes[Pos(k, 0)].right);
            && st' == st.(gs := st'.gs, nodes := st'.nodes)
            && Pos(k, 0) in st'.nodes && st'.nodes == st.nodes[Pos(k, 0) := st'.nodes[Pos(k, 0)]]
            && st'.gs == st.gs[0 := if k == 0 then Sending(next) else Writing(Pos(k, 0), next)]
  {
    hide Exec;
    var at, p := Pos(k + 1, 0), Pos(k, 0);
    assert Up(at) == p;
    var n := st.nodes[p].(left := s);
    var s1 := st.(nodes := st.nodes[p := n], gs := st.gs[0 := Checking(at)]);
    var s2 := s1.(gs := s1.gs[0 := Toggling(at)]);
    ToggleWraps(n.state);
    var n' := n.(state := Toggle(n.state).0);
    var s3 := s2.(nodes := s2.nodes[p := n'], gs := s2.gs[0 := Rechecking(at)]);
    var s4 := s3.(gs := s3.gs[0 := ReadingLeft(at, false)]);
    var s5 := s4.(gs := s4.gs[0 := ReadingRight(at, false, s)]);
    var next := env.hash(s + n.right);
    var s6 := s5.(gs := s5.gs[0 := ReadingRoot(at, next)]);
    st' := s6.(gs := s6.gs[0 := if k == 0 then Sending(next) else Writing(p, next)]);
    evs := [];
    ExecNone(env, st);
    evs := Then(env, st, evs, st, s1);
    evs := Then(env, st, evs, s1, s2);
    evs := Then(env, st, evs, s2, s3);
    evs := Then(env, st, evs, s3, s4);
    evs := Then(env, st, evs, s4, s5);
    evs := Then(env, st, evs, s5, s6);
    evs := Then(env, st, evs, s6, st');
  }

  lemma ExecNone(env: Env, st: State)
    ensures Exec(env, st, []) == Some(st)
  {}

  /** A run and one more step of the first goroutine. */
  lemma Then(env: Env, st: State, evs: seq<Event>, mid: State, end: State) returns (evs': seq<Event>)
    requires Exec(env, st, evs) == Some(mid) && Step(env, mid, GoStep(0)) == Some(end)
    ensures Exec(env, st, evs') == Some(end)
  {
    hide Exec, Step;
    evs' := evs + [GoStep(0)];
    ExecBoth(env, st, evs, [GoStep(0)]);
    ExecOne(env, mid, GoStep(0));
  }

  /** The first goroutine climbs to the root on its own. */
  lemma {:induction false} Overtaken(env: Env, st: State, level: nat, s: Bytes) returns (evs: seq<Event>, st': State)
    requires 0 < level <= env.depth && |st.gs| > 0 && st.gs[0] == Writing(Pos(level, 0), s)
    requires forall k | 0 <= k < level :: Pos(k, 0) in st.nodes && WrappedNode(Pos(k, 0), st.nodes[Pos(k, 0)])
    ensures Exec(env, st, evs) == Some(st') && st' == st.(gs := st'.gs, nodes := st'.nodes)
    ensures st'.nodes.Keys == st.nodes.Keys && st'.gs == st.gs[0 := Sending(Stale(env, st.nodes, level, s))]
    decreases level
  {
    hide Exec, WrappedNode;
    evs, st' := Overtakes(env, st, level - 1, s);
    var next := env.hash(s + st.nodes[Pos(level - 1, 0)].right);
    if level > 1 {
      var evs1, st1 := Overtaken(env, st', level - 1, next);
      ExecBoth(env, st, evs, evs1);
      StaleSame(env, st.nodes, st'.nodes, level - 1, next);
      evs, st' := evs + evs1, st1;
    } else {
      StaleRoot(env, st.nodes, s);
    }
  }

  lemma StaleRoot(env: Env, nodes: map<Pos, Node>, s: Bytes)
    requires Root in nodes
    ensures Stale(env, nodes, 1, s) == env.hash(s + nodes[Root].right)
  {}

  lemma {:induction false} StaleSame(env: Env, nodes: map<Pos, Node>, nodes': map<Pos, Node>, level: nat, s: Bytes)
    requires forall k | 0 <= k < level ::
               Pos(k, 0) in nodes && Pos(k, 0) in nodes' && nodes'[Pos(k, 0)] == nodes[Pos(k, 0)]
    ensures Stale(env, nodes, level, s) == Stale(env, nodes', level, s)
  {
    if level > 0 {
      StaleSame(env, nodes, nodes', level - 1, env.hash(s + nodes[Pos(level - 1, 0)].right));
    }
  }

  /** The main thread gets to where it waits, whatever the first goroutine is doing. */
  lemma {:induction false} MainWaits(env: Env, st: State) returns (evs: seq<Event>, st': State)
    requires env.depth > 0 && |st.gs| == Leaves(env) && forall p | IsNode(env, p) :: p in st.nodes
    requires match st.main
             case Launching(i) => 0 < i < Leaves(env)
             case FinalUnbalanced(level) => level < env.depth
             case FinalRight(level) => level < env.depth
             case FinalRoot => true
             case LaunchingLast => true
             case _ => false
    ensures Exec(env, st, evs) == Some(st') && st'.main == Waiting && st'.sent == st.sent
    ensures |st'.gs| == |st.gs| && st'.gs[0] == st.gs[0]
    decreases MainRank(env, st.main)
  {
    hide Exec, Segment;
    TwoLeaves(env);
    if st.main.FinalUnbalanced? || st.main.FinalRight? {
      SpineNode(env, st.main.level);
    }
    st' := StepMain(env, st).value;
    evs := [MainStep];
    ExecOne(env, st, MainStep);
    if st'.main != Waiting {
      var evs1, st1 := MainWaits(env, st');
      ExecBoth(env, st, evs, evs1);
      evs, st' := evs + evs1, st1;
    }
  }

  lemma TwoLeaves(env: Env)
    requires env.depth > 0
    ensures Leaves(env) >= 2 && IsNode(env, Root)
  {}

  /** On a tree whose counters have wrapped there is a run that sends a value made of the first double segment
      and of what the nodes held before: no other part of the chunk has any influence on it. */
  lemma WrappedRun(env: Env, st: State) returns (evs: seq<Event>)
    requires Full(env) && Wrapped(env, st.nodes) && Ready(env, st)
    ensures forall k | 0 <= k < env.depth :: Pos(k, 0) in st.nodes
    ensures Exec(env, st, evs).Some?
    ensures Exec(env, st, evs).value.sent == [Stale(env, st.nodes, env.depth, env.hash(Segment(env, 0)))]
  {
    hide Exec, Segment, Full, LeavesOk, WrappedNode;
    assert env.depth > 0 by { FullDepth(env); }
    TwoLeaves(env);
    var s := env.hash(Segment(env, 0));
    forall k: nat | k < env.depth ensures Pos(k, 0) in st.nodes && WrappedNode(Pos(k, 0), st.nodes[Pos(k, 0)]) {
      assert IsNode(env, Pos(k, 0));
    }
    var s1 := st.(gs := st.gs[0 := Started], main := Launching(1));
    ExecOne(env, st, MainStep);
    evs := [MainStep];
    FirstLeaf(env, s1);
    var s2 := s1.(gs := s1.gs[0 := Writing(Pos(env.depth, 0), s)]);
    evs := Then(env, st, evs, s1, s2);
    var climb, s3 := Overtaken(env, s2, env.depth, s);
    ExecBoth(env, st, evs, climb);
    var wait, s4 := MainWaits(env, s3);
    ExecBoth(env, st, evs + climb, wait);
    var s5 := s4.(gs := s4.gs[0 := Ended], main := ReleaseUnbalanced(s4.gs[0].s, env.depth),
        sent := s4.sent + [s4.gs[0].s]);
    evs := Then(env, st, evs + climb + wait, s4, s5);
  }

  lemma FullDepth(env: Env)
    requires Full(env)
    ensures env.depth > 0
  {}

  lemma FirstLeaf(env: Env, st: State)
    requires LeavesOk(env, st.nodes)
    ensures Pos(env.depth, 0) in st.nodes && !st.nodes[Pos(env.depth, 0)].root
  {}

  /** Such a value need not be the reference hash: with the last byte for a hash, four segments of one byte give
      another. */
  lemma WrappedIsWrong() returns (env: Env, st: State, evs: seq<Event>)
    ensures Full(env) && Wrapped(env, st.nodes) && Ready(env, st) && Exec(env, st, evs).Some?
    ensures |Exec(env, st, evs).value.sent| == 1 && Exec(env, st, evs).value.sent[0] != Reference(env)
  {
    hide Exec, Reference;
    var hash: Bytes -> Bytes := (x: Bytes) => [if |x| == 0 then 0 else x[|x| - 1]];
    env := Env(hash, 1, 1, [1, 2, 3, 4]);
    assert Pow2(2) == 4 && Pow2(1) == 2;
    var leaf := Node(0, [], [], false, false);
    var nodes := map[Root := Node(-2, [], [], false, true), Pos(1, 0) := leaf, Pos(1, 1) := leaf];
    st := State(nodes, [Idle, Idle], Launching(0), []);
    evs := WrappedRun(env, st);
    StaleRoot(env, nodes, env.hash(Segment(env, 0)));
    assert Segment(env, 0) == [1, 2];
    ReferenceIsMerkle(env);
    assert env.chunk[..2] == [1, 2] && env.chunk[2..] == [3, 4];
    assert Merkle(env.hash, env.chunk, 1) == [4];
  }

  // ---------- making the tree and feeding it ----------

  /** The tree for a number of segments: level by level, each node below the one at half its index. */
  method NewTree(count: nat) returns (nodes: map<Pos, Node>, d: nat)
    requires count > 0
    ensures (count - 1) / 2 < Pow2(d) && (d > 0 ==> Pow2(d - 1) <= (count - 1) / 2)
    ensures forall p :: p in nodes <==> p.level <= d && p.index < Pow2(p.level)
    ensures forall p | p in nodes :: (p.level > 0 ==> Up(p) in nodes) && nodes[p] == Node(0, [], [], false, p == Root)
  {
    d := Depth(count);
    nodes := map[Root := Node(0, [], [], false, true)];
    var level, width := 1, 2;
    while level <= d
      invariant 1 <= level <= d + 1 && width == Pow2(level)
      invariant forall p :: p in nodes <==> p.level < level && p.index < Pow2(p.level)
      invariant forall p | p in nodes :: nodes[p] == Node(0, [], [], false, p == Root)
    {
      var i := 0;
      while i < width
        invariant 0 <= i <= width
        invariant forall p :: p in nodes <==>
                    (p.level < level && p.index < Pow2(p.level)) || (p.level == level && p.index < i)
        invariant forall p | p in nodes :: nodes[p] == Node(0, [], [], false, p == Root)
      {
        nodes := nodes[Pos(level, i) := Node(0, [], [], false, false)];
        i := i + 1;
      }
      level, width := level + 1, 2 * width;
    }
  }

  /** A new tree is clean for chunks of its number of segments. */
  lemma NewTreeIsClean(env: Env, nodes: map<Pos, Node>, d: nat)
    requires var count := Pow2(env.depth + 1); (count - 1) / 2 < Pow2(d) && (d > 0 ==> Pow2(d - 1) <= (count - 1) / 2)
    requires forall p :: p in nodes <==> p.level <= d && p.index < Pow2(p.level)
    requires forall p | p in nodes :: nodes[p] == Node(0, [], [], false, p == Root)
    requires env.depth > 0
    ensures Clean(env, nodes)
  {
    DepthOfFull(env.depth, d);
  }

  /** Where the `i`-th double segment starts. */
  function Start(size: nat, i: nat): nat {
    i * (2 * size)
  }

  /** The bytes of data that there is room for. */
  function Fitting(data: Bytes, room: nat): Bytes {
    if |data| <= room then data else data[..room]
  }

  /** The double segments `lo` up to `hi` of data, each with its number. */
  function Segments(data: Bytes, size: nat, lo: nat, hi: nat): (r: seq<(nat, Bytes)>)
    requires lo <= hi && Start(size, hi) <= |data|
    ensures |r| == hi - lo
  {
    if lo == hi then []
    else
      StartNext(size, hi - 1);
      Segments(data, size, lo, hi - 1) + [(hi - 1, data[Start(size, hi - 1)..Start(size, hi)])]
  }

  lemma StartNext(size: nat, i: nat)
    ensures Start(size, i + 1) == Start(size, i) + 2 * size && Start(size, 0) == 0
  {
    assert (i + 1) * (2 * size) == i * (2 * size) + 2 * size;
  }

  lemma StartGrows(size: nat, i: nat, j: nat)
    requires i <= j
    ensures Start(size, i) <= Start(size, j)
    ensures Start(size, j) - Start(size, i) == (j - i) * (2 * size)
  {
    Spread(i, j - i, 2 * size);
  }

  lemma Spread(a: nat, b: nat, c: nat)
    ensures (a + b) * c == a * c + b * c && 0 <= b * c
  {}

  lemma {:induction false} SegmentsMore(a: Bytes, b: Bytes, size: nat, lo: nat, hi: nat)
    requires lo <= hi && Start(size, hi) <= |a| <= |b| && a == b[..|a|]
    ensures Segments(a, size, lo, hi) == Segments(b, size, lo, hi)
    decreases hi - lo
  {
    hide Start;
    if lo < hi {
      StartNext(size, hi - 1);
      SegmentsMore(a, b, size, lo, hi - 1);
      assert a[Start(size, hi - 1)..Start(size, hi)] == b[Start(size, hi - 1)..Start(size, hi)];
    }
  }

  lemma {:induction false} SegmentsJoin(data: Bytes, size: nat, lo: nat, mid: nat, hi: nat)
    requires lo <= mid <= hi && Start(size, hi) <= |data|
    ensures Start(size, mid) <= |data|
    ensures Segments(data, size, lo, hi) == Segments(data, size, lo, mid) + Segments(data, size, mid, hi)
    decreases hi - mid
  {
    hide Start;
    StartGrows(size, mid, hi);
    if mid < hi {
      StartNext(size, hi - 1);
      SegmentsJoin(data, size, lo, mid, hi - 1);
    }
  }

  /** What is buffered: the data written so far from the open double segment on, which is at most full. */
  ghost predicate Buffered(size: nat, leaves: nat, data: Bytes, cur: nat, segment: Bytes) {
    && size > 0 && cur < leaves && |data| <= Start(size, leaves)
    && Start(size, cur) <= |data| && segment == data[Start(size, cur)..] && |segment| <= 2 * size
    && (cur > 0 ==> segment != [])
  }

  class Hasher {
    const size: nat
    const count: nat
    var cur: nat
    var segment: Bytes
    ghost var data: Bytes

    constructor (size: nat, count: nat)
      requires size > 0 && count > 0
      ensures this.size == size && this.count == count && Valid() && data == [] && cur == 0
    {
      this.size, this.count := size, count;
      cur, segment, data := 0, [], [];
      new;
      StartNext(size, 0);
    }

    ghost predicate Valid()
      reads this
    {
      count > 0 && Buffered(size, (count + 1) / 2, data, cur, segment)
    }

    lemma Opened()
      requires Valid()
      ensures segment == data[if Start(size, cur) <= |data| then Start(size, cur) else 0..]
      ensures size > 0 && cur < (count + 1) / 2 && |segment| <= 2 * size && (cur > 0 ==> segment != [])
      ensures Start(size, cur) <= |data|
    {}

    lemma Evenly()
      requires Valid() && count % 2 == 0
      ensures Limit(size, count, |data|, cur) == Start(size, count / 2) && !Halved()
    {
      EvenLimit(size, count, data, cur, segment);
    }

    /** The open double segment is the last, of which an odd number of segments leaves only half. */
    predicate Halved()
      reads `cur
    {
      count % 2 == 1 && cur == (count + 1) / 2 - 1
    }

    /** Adds to the data as many of the bytes as it finds room for.  A double segment is launched, in order, as soon as
        there is a byte after it, and the last one stays open for the final step.  What is found to be room is right
        for an even number of segments; for an odd one too much is taken when a segment is open that is not the last,
        and the next write is then a panic. */
    method Write(b: Bytes) returns (n: nat, launched: seq<(nat, Bytes)>, panics: bool)
      requires Valid()
      modifies this
      ensures Valid() && (panics <==> b != [] && old(Halved()) && |old(segment)| > size)
      ensures panics ==> data == old(data) && cur == old(cur) && segment == old(segment)
      ensures !panics ==>
                && n == |b| && cur >= old(cur) && Start(size, cur) <= |data|
                && (b != [] ==> data == Fitting(old(data) + b, Limit(size, count, |old(data)|, old(cur))))
                && (b == [] ==> data == old(data)) && launched == Segments(data, size, old(cur), cur)
    {
      hide Start, Taking, Segments, Buffered, RoomFrom, Fitting, Limit;
      n, launched, panics := |b|, [], false;
      if n == 0 {
        NothingToTake(size, (count + 1) / 2, data, cur, segment);
        return;
      }
      var s, i, leaves := segment, cur, (count + 1) / 2;
      InRange(size, leaves, data, cur, segment);
      Room(size, count, cur);
      var need := RoomFrom(size, count, cur);
      ghost var wanted := if n < need then n else need;
      ghost var w, half := Input(size, leaves, data, b, cur, wanted), Halved();
      var width := size;
      if need > width {
        width := 2 * width;
      }
      if n < need {
        need := n;
      }
      var rest := width - |s|;
      if need < rest {
        rest := need;
      }
      if rest < 0 {
        panics := true;
        return;
      }
      s := s + b[..rest];
      need := need - rest;
      if half {
        TakeHalf(size, count, data, cur, segment, b, rest);
      } else {
        TakeFirst(size, leaves, data, cur, segment, b, wanted, rest);
      }
      ghost var first := s;
      while need > 0 && i < leaves - 1
        invariant old(cur) <= i < leaves && rest >= 0 && width >= 0
        invariant if half then i == old(cur) && launched == [] && s == first
                  else Taking(w, i, s, rest, need, width, launched)
        modifies {}
        decreases leaves - i
      {
        AtFull(w, i, s, rest, need, width, launched);
        launched := launched + [(i, s)];
        need := need - width;
        if need < 0 {
          width := width + need;
        }
        TakeNext(w, i, s, rest, need, width, launched);
        s := b[rest..rest + width];
        rest := rest + width;
        i := i + 1;
      }
      if !half {
        TakeLast(w, i, s, rest, need, width, launched, segment, count);
      }
      data := Fitting(data + b, Limit(size, count, |data|, cur));
      segment, cur := s, i;
    }
  }

  lemma OddFacts()
    ensures Start(1, 0) == 0 && Start(1, 1) == 2 && Start(1, 2) == 4
    ensures Limit(1, 3, 0, 0) == 3 && Limit(1, 3, 1, 0) == 4
  {
    hide Start;
    StartNext(1, 0);
    StartNext(1, 1);
    Room(1, 3, 0);
  }

  /** How long the data may get by a write: up to the capacity, except that what is in an open segment before the last
      is not counted.  There is no room beyond the last double segment. */
  function Limit(size: nat, count: nat, filled: nat, cur: nat): nat {
    var leaves := (count + 1) / 2;
    if cur + 1 >= leaves then count * size
    else
      var found := filled + RoomFrom(size, count, cur);
      if 0 <= found < Start(size, leaves) then found else Start(size, leaves)
  }

  /** For an even number of segments that is the capacity. */
  lemma EvenLimit(size: nat, count: nat, data: Bytes, cur: nat, segment: Bytes)
    requires count % 2 == 0 && Buffered(size, count / 2, data, cur, segment)
    ensures Limit(size, count, |data|, cur) == count * size == Start(size, count / 2)
  {
    hide Start;
    Room(size, count, cur);
    Room(size, count, count / 2 - 1);
    StartNext(size, count / 2 - 1);
  }

  /** For an odd number more than the capacity is taken exactly if there is more, and some of it is in an open double
      segment before the last. */
  lemma OddLimit(size: nat, count: nat, data: Bytes, cur: nat, segment: Bytes, b: Bytes)
    requires count % 2 == 1 && Buffered(size, (count + 1) / 2, data, cur, segment) && |data| <= count * size
    ensures |Fitting(data + b, Limit(size, count, |data|, cur))| > count * size <==>
              |data + b| > count * size && segment != [] && cur < (count + 1) / 2 - 1
  {
    hide Start;
    var leaves := (count + 1) / 2;
    Room(size, count, cur);
    Room(size, count, leaves - 1);
    StartNext(size, leaves - 1);
  }

  /** So it happens that a hasher for three segments takes four and panics on the next write. */
  method OddPanics() returns (h: Hasher, panics: bool)
    ensures fresh(h) && h.count * h.size == 3 && |h.data| == 4 && panics
  {
    hide Buffered, Segments, Start, Limit, Fitting, RoomFrom;
    h := new Hasher(1, 3);
    OddFacts();
    AllFits([] + [0], 3);
    AllFits([0] + [1, 2, 3], 4);
    var _, _, _ := h.Write([0]);
    h.Opened();
    var _, _, _ := h.Write([1, 2, 3]);
    h.Opened();
    var _, _, crash := h.Write([4]);
    panics := crash;
  }

  /** A write under way: the data and the position before it, and how much of it is wanted. */
  datatype Input = Input(size: nat, leaves: nat, data: Bytes, b: Bytes, cur: nat, wanted: nat)

  /** The first `rest` bytes have been taken, and double segment `i` is open.  If more is wanted it is full. */
  ghost predicate Taking(w: Input, i: nat, s: Bytes, rest: nat, need: int, width: nat, launched: seq<(nat, Bytes)>) {
    var all, to := w.data + w.b, |w.data| + rest;
    && w.cur <= i < w.leaves && rest <= w.wanted <= |w.b| && Start(w.size, i) <= to && s == all[Start(w.size, i)..to]
    && (if need > 0 then width == 2 * w.size && need == w.wanted - rest && to == Start(w.size, i + 1)
        else rest == w.wanted && |s| <= 2 * w.size)
    && (i > 0 ==> s != []) && launched == Segments(all, w.size, w.cur, i)
  }

  lemma InRange(size: nat, leaves: nat, data: Bytes, cur: nat, segment: Bytes)
    requires Buffered(size, leaves, data, cur, segment)
    ensures size > 0 && cur < leaves && |segment| <= 2 * size
  {}

  lemma NothingToTake(size: nat, leaves: nat, data: Bytes, cur: nat, segment: Bytes)
    requires Buffered(size, leaves, data, cur, segment)
    ensures Start(size, cur) <= |data| && Segments(data, size, cur, cur) == []
  {}

  /** In the last half what is missing is taken. */
  lemma TakeHalf(size: nat, count: nat, data: Bytes, cur: nat, segment: Bytes, b: Bytes, rest: nat)
    requires count % 2 == 1 && cur == (count + 1) / 2 - 1 && Buffered(size, (count + 1) / 2, data, cur, segment)
    requires |segment| <= size && rest == (if |b| < size - |segment| then |b| else size - |segment|)
    ensures var data' := Fitting(data + b, Limit(size, count, |data|, cur));
            && Buffered(size, (count + 1) / 2, data', cur, segment + b[..rest])
            && Start(size, cur) <= |data'| && Segments(data', size, cur, cur) == []
  {
    hide Start;
    Room(size, count, cur);
    StartNext(size, cur);
    var data' := Fitting(data + b, Limit(size, count, |data|, cur));
    assert data' == (data + b)[..|data| + rest];
    assert segment + b[..rest] == data'[Start(size, cur)..];
  }

  lemma AtFull(w: Input, i: nat, s: Bytes, rest: nat, need: int, width: nat, launched: seq<(nat, Bytes)>)
    requires Taking(w, i, s, rest, need, width, launched) && need > 0
    ensures width == 2 * w.size
  {}

  lemma TakeFirst(size: nat, leaves: nat, data: Bytes, cur: nat, segment: Bytes, b: Bytes, wanted: nat, rest: nat)
    requires Buffered(size, leaves, data, cur, segment) && b != [] && 0 < wanted <= |b|
    requires rest == if wanted < 2 * size - |segment| then wanted else 2 * size - |segment|
    ensures var w := Input(size, leaves, data, b, cur, wanted);
            Taking(w, cur, segment + b[..rest], rest, wanted - rest, 2 * size, [])
  {
    hide Start;
    StartNext(size, cur);
    assert segment + b[..rest] == (data + b)[Start(size, cur)..|data| + rest];
  }

  lemma TakeNext(w: Input, i: nat, s: Bytes, rest: nat, need: int, width: nat, launched: seq<(nat, Bytes)>)
    requires launched != [] && w.size > 0 && i < w.leaves - 1 && launched[|launched| - 1] == (i, s)
    requires Taking(w, i, s, rest, need + 2 * w.size, 2 * w.size, launched[..|launched| - 1]) && need + 2 * w.size > 0
    requires width == if need < 0 then 2 * w.size + need else 2 * w.size
    ensures rest + width <= |w.b|
    ensures Taking(w, i + 1, w.b[rest..rest + width], rest + width, need, width, launched)
  {
    hide Start;
    StartNext(w.size, i);
    StartNext(w.size, i + 1);
    var all := w.data + w.b;
    assert w.b[rest..rest + width] == all[|w.data| + rest..|w.data| + rest + width];
  }

  lemma TakeLast(w: Input, i: nat, s: Bytes, rest: nat, need: int, width: nat, launched: seq<(nat, Bytes)>,
                 segment: Bytes, count: nat)
    requires Buffered(w.size, w.leaves, w.data, w.cur, segment) && Taking(w, i, s, rest, need, width, launched)
    requires need <= 0 || i == w.leaves - 1
    requires w.leaves == (count + 1) / 2 && (count % 2 == 1 ==> w.cur < w.leaves - 1)
    requires var room := RoomFrom(w.size, count, w.cur);
             w.wanted == if |w.b| < room then |w.b| else room
    ensures var data := Fitting(w.data + w.b, Limit(w.size, count, |w.data|, w.cur));
            && Buffered(w.size, w.leaves, data, i, s) && Start(w.size, i) <= |data|
            && launched == Segments(data, w.size, w.cur, i)
  {
    hide Start, Segments, RoomFrom, Limit;
    Filled(w.size, w.leaves, w.cur, i, |w.data|, rest, w.wanted, need);
    Reached(w.size, count, w.cur, |w.data|, rest, |w.b|, w.wanted);
    StartNext(w.size, i);
    StartGrows(w.size, i + 1, w.leaves);
    var all := w.data + w.b;
    var data := Fitting(all, Limit(w.size, count, |w.data|, w.cur));
    assert data == all[..|w.data| + rest];
    SegmentsMore(data, all, w.size, w.cur, i);
  }

  lemma Reached(size: nat, count: nat, cur: nat, from: nat, rest: nat, n: nat, wanted: nat)
    requires size > 0 && cur < (count + 1) / 2 && (count % 2 == 1 ==> cur < (count + 1) / 2 - 1)
    requires Start(size, cur) <= from
    requires wanted == if n < RoomFrom(size, count, cur) then n else RoomFrom(size, count, cur)
    requires var full := Start(size, (count + 1) / 2);
             from <= full && from + rest == if from + wanted <= full then from + wanted else full
    ensures from + rest == if from + n <= Limit(size, count, from, cur) then from + n else Limit(size, count, from, cur)
  {
    hide Start, RoomFrom;
    Room(size, count, cur);
  }

  /** The room from the open double segment on. */
  function RoomFrom(size: nat, count: nat, cur: nat): int {
    count * size - cur * 2 * size
  }

  lemma StartTwice(size: nat, i: nat)
    ensures Start(size, i) == i * 2 * size == (2 * i) * size
  {}

  /** The capacity, for an odd number of segments half a double segment less than all of them. */
  lemma Capacity(size: nat, count: nat)
    ensures count * size == Start(size, (count + 1) / 2) - if count % 2 == 1 then size else 0
  {
    hide Start;
    StartTwice(size, (count + 1) / 2);
    if count % 2 == 1 {
      assert 2 * ((count + 1) / 2) == count + 1;
      Spread(count, 1, size);
    } else {
      assert 2 * ((count + 1) / 2) == count;
    }
  }

  lemma Room(size: nat, count: nat, cur: nat)
    requires size > 0 && cur < (count + 1) / 2
    ensures var leaves, half := (count + 1) / 2, if count % 2 == 1 then size else 0;
            && RoomFrom(size, count, cur) == Start(size, leaves) - Start(size, cur) - half
            && RoomFrom(size, count, cur) >= 2 * size - half && count * size == Start(size, leaves) - half
            && (if cur < leaves - 1 then RoomFrom(size, count, cur) > size
                else RoomFrom(size, count, cur) == 2 * size - half)
    ensures Start(size, 0) == 0
  {
    hide Start;
    var leaves := (count + 1) / 2;
    Capacity(size, count);
    StartTwice(size, cur);
    StartGrows(size, cur + 1, leaves);
    StartNext(size, cur);
    if cur < leaves - 1 {
      StartGrows(size, cur + 2, leaves);
      StartNext(size, cur + 1);
    }
  }

  /** When the writing stops either all that is wanted has been taken or the data is full. */
  lemma Filled(size: nat, leaves: nat, cur: nat, i: nat, from: nat, rest: nat, wanted: nat, need: int)
    requires cur <= i < leaves && Start(size, cur) <= from <= Start(size, leaves)
    requires if need > 0 then i == leaves - 1 && from + rest == Start(size, i + 1) && rest <= wanted
             else from + rest <= Start(size, i) + 2 * size && rest == wanted
    ensures from + rest == if from + wanted <= Start(size, leaves) then from + wanted else Start(size, leaves)
  {
    hide Start;
    StartNext(size, i);
    StartGrows(size, i + 1, leaves);
  }

  /** However a full chunk is cut into writes: all but its last double segment are launched, in order, and the
      last one is left open. */
  method WriteAll(env: Env, pieces: seq<Bytes>) returns (h: Hasher, launched: seq<(nat, Bytes)>)
    requires Full(env) && Flat(pieces) == env.chunk
    ensures fresh(h) && h.Valid() && h.data == env.chunk && h.cur == Leaves(env) - 1 && h.segment == Segment(env, h.cur)
    ensures |launched| == Leaves(env) - 1 && forall i | 0 <= i < |launched| :: launched[i] == (i, Segment(env, i))
  {
    hide Full, Start, Segment, Leaves, Flat, Fitting, Buffered;
    ChunkSize(env);
    h := new Hasher(env.size, 2 * Leaves(env));
    launched := [];
    NoPieces(pieces);
    StartNext(env.size, 0);
    for k := 0 to |pieces|
      invariant fresh(h) && h.Valid() && h.size == env.size && h.count == 2 * Leaves(env)
      invariant h.data == Flat(pieces[..k]) && |h.data| <= |env.chunk|
      invariant Start(h.size, h.cur) <= |h.data| && launched == Segments(h.data, h.size, 0, h.cur)
    {
      ghost var data, cur := h.data, h.cur;
      OnePiece(pieces, k, env.chunk);
      h.Evenly();
      var _, more, _ := h.Write(pieces[k]);
      AllFits(data + pieces[k], Start(env.size, Leaves(env)));
      assert pieces[k] == [] ==> data + pieces[k] == data;
      SegmentsMore(data, h.data, h.size, 0, cur);
      SegmentsJoin(h.data, h.size, 0, cur, h.cur);
      launched := launched + more;
    }
    assert pieces[..|pieces|] == pieces;
    AllLaunched(env, h.cur, h.segment);
    SegmentsAre(env, h.cur);
  }

  function Flat(pieces: seq<Bytes>): Bytes {
    if pieces == [] then [] else Flat(pieces[..|pieces| - 1]) + pieces[|pieces| - 1]
  }

  lemma NoPieces(pieces: seq<Bytes>)
    ensures Flat(pieces[..0]) == []
  {}

  lemma OnePiece(pieces: seq<Bytes>, k: nat, chunk: Bytes)
    requires k < |pieces| && Flat(pieces) == chunk
    ensures Flat(pieces[..k + 1]) == Flat(pieces[..k]) + pieces[k] && |Flat(pieces[..k + 1])| <= |chunk|
  {
    assert pieces[..k + 1][..k] == pieces[..k];
    FlatGrows(pieces, k + 1);
  }

  lemma {:induction false} FlatGrows(pieces: seq<Bytes>, k: nat)
    requires k <= |pieces|
    ensures |Flat(pieces[..k])| <= |Flat(pieces)|
    decreases |pieces| - k
  {
    if k < |pieces| {
      FlatGrows(pieces, k + 1);
      assert pieces[..k + 1][..k] == pieces[..k];
    } else {
      assert pieces[..k] == pieces;
    }
  }

  lemma AllFits(data: Bytes, room: nat)
    requires |data| <= room
    ensures Fitting(data, room) == data
  {}

  lemma ChunkSize(env: Env)
    requires Full(env)
    ensures |env.chunk| == Start(env.size, Leaves(env)) && env.size > 0 && Leaves(env) >= 1
  {
    assert Pow2(env.depth + 1) == 2 * Leaves(env);
    Spread(Leaves(env), Leaves(env), env.size);
    assert 2 * Leaves(env) * env.size == Leaves(env) * (2 * env.size);
  }

  lemma SegmentAt(env: Env, i: nat)
    requires Full(env) && i < Leaves(env)
    ensures Start(env.size, i) + 2 * env.size == Start(env.size, i + 1) <= |env.chunk|
    ensures Segment(env, i) == env.chunk[Start(env.size, i)..Start(env.size, i + 1)]
  {
    hide Full, Leaves;
    ChunkSize(env);
    StartNext(env.size, i);
    StartGrows(env.size, i + 1, Leaves(env));
  }

  /** A full chunk is open at its last double segment. */
  lemma AllLaunched(env: Env, cur: nat, segment: Bytes)
    requires Full(env) && Buffered(env.size, Leaves(env), env.chunk, cur, segment)
    ensures cur == Leaves(env) - 1 && segment == Segment(env, cur)
  {
    hide Full, Segment, Leaves, Start;
    ChunkSize(env);
    SegmentAt(env, cur);
    if cur < Leaves(env) - 1 {
      StartGrows(env.size, cur + 2, Leaves(env));
      StartNext(env.size, cur + 1);
    }
  }

  lemma {:induction false} SegmentsAre(env: Env, hi: nat)
    requires Full(env) && hi < Leaves(env)
    ensures Start(env.size, hi) <= |env.chunk|
    ensures forall i | 0 <= i < hi :: Segments(env.chunk, env.size, 0, hi)[i] == (i, Segment(env, i))
  {
    hide Full, Segment, Leaves, Start;
    SegmentAt(env, hi);
    if hi > 0 {
      SegmentAt(env, hi - 1);
      SegmentsAre(env, hi - 1);
    }
  }
}
