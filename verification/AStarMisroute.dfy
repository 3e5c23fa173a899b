/** The steps of the A* loop one by one (services/route-service/main.py:108-131), and a run in which an
    inadmissible heuristic makes it return a route five times too long. */
module AStarMisroute {
  import opened Options
  import opened Walks
  import opened AStarSearch

  /** The loop's variables; `at` is the entry whose neighbours are being looked at, `todo` those left. */
  datatype Search = Search(gs: Labels, cf: Parents, heap: set<Entry>, tie: nat, at: Option<Entry>, todo: set<Node>)

  datatype Move = Pop(e: Entry) | Look(n: Node) | Finish

  ghost predicate Enabled(g: Graph, goal: Node, s: Search, m: Move) {
    match m
    case Pop(e) => s.at.None? && Least(e, s.heap) && e.node != goal && e.node in s.gs
    case Look(n) => s.at.Some? && n in s.todo && Edge(g, s.at.value.node, n)
    case Finish => s.at.Some? && s.todo == {}
  }

  ghost function Apply(g: Graph, h: Node -> real, goal: Node, s: Search, m: Move): Search
    requires Enabled(g, goal, s, m)
  {
    match m
    case Pop(e) =>
      if e.g > s.gs[e.node] then s.(heap := s.heap - {e})
      else s.(heap := s.heap - {e}, at := Some(e), todo := Neighbours(g, e.node).Keys)
    case Look(n) =>
      var e := s.at.value;
      var x := e.g + g[e.node][n];
      if n !in s.gs || x < s.gs[n] then
        Search(s.gs[n := x], s.cf[n := Some(e.node)], s.heap + {Entry(x + h(n), s.tie + 1, x, n)}, s.tie + 1,
               s.at, s.todo - {n})
      else s.(todo := s.todo - {n})
    case Finish => s.(at := None)
  }

  ghost predicate Run(g: Graph, h: Node -> real, goal: Node, s: Search, moves: seq<Move>, s': Search)
    decreases moves
  {
    if moves == [] then s == s'
    else Enabled(g, goal, s, moves[0]) && Run(g, h, goal, Apply(g, h, goal, s, moves[0]), moves[1..], s')
  }

  function Start(h: Node -> real, start: Node): Search {
    Search(map[start := 0.0], map[start := None], {Entry(h(start), 0, 0.0, start)}, 0, None, {})
  }

  /** The next entry popped is the goal's: the loop returns with its cost. */
  ghost predicate Returns(s: Search, goal: Node, e: Entry) {
    s.at.None? && Least(e, s.heap) && e.node == goal
  }

  /** From "s" to "t" directly for 10, or over "m" for 2. */
  const DETOUR: Graph := map["s" := map["t" := 10.0, "m" := 1.0], "m" := map["t" := 1.0]]

  function Misled(v: Node): real {
    if v == "m" then 100.0 else 0.0
  }

  lemma RunCons(s: Search, m: Move, rest: seq<Move>, s': Search)
    requires Enabled(DETOUR, "t", s, m) && Run(DETOUR, Misled, "t", Apply(DETOUR, Misled, "t", s, m), rest, s')
    ensures Run(DETOUR, Misled, "t", s, [m] + rest, s')
  {
    assert ([m] + rest)[1..] == rest;
  }

  /** With a heuristic that overestimates at "m", the loop, run from its start, returns a cost of 10
      although a walk costs 2. */
  lemma InadmissibleMisroutes() returns (moves: seq<Move>, s: Search, e: Entry)
    ensures Run(DETOUR, Misled, "t", Start(Misled, "s"), moves, s)
    ensures Returns(s, "t", e) && e.g == 10.0
    ensures WalkFromTo(DETOUR, ["s", "m", "t"], "s", "t") && Cost(DETOUR, ["s", "m", "t"]) == 2.0
  {
    var first := Entry(0.0, 0, 0.0, "s");
    var s0 := Start(Misled, "s");
    assert Least(first, s0.heap);
    var s1 := Apply(DETOUR, Misled, "t", s0, Pop(first));
    assert s1.heap == {} && s1.todo == {"t", "m"};
    var s2 := Apply(DETOUR, Misled, "t", s1, Look("t"));
    var s3 := Apply(DETOUR, Misled, "t", s2, Look("m"));
    s := Apply(DETOUR, Misled, "t", s3, Finish);
    e := Entry(10.0, 1, 10.0, "t");
    assert s.heap == {e, Entry(101.0, 2, 1.0, "m")};
    RunCons(s3, Finish, [], s);
    RunCons(s2, Look("m"), [Finish] + [], s);
    RunCons(s1, Look("t"), [Look("m")] + ([Finish] + []), s);
    RunCons(s0, Pop(first), [Look("t")] + ([Look("m")] + ([Finish] + [])), s);
    moves := [Pop(first)] + ([Look("t")] + ([Look("m")] + ([Finish] + [])));
    DetourCost();
  }

  lemma DetourCost()
    ensures WalkFromTo(DETOUR, ["s", "m", "t"], "s", "t") && Cost(DETOUR, ["s", "m", "t"]) == 2.0
  {
    assert ["s", "m"] == ["s"] + ["m"] && ["s", "m", "t"] == ["s", "m"] + ["t"];
    WalkExtend(DETOUR, ["s"], "m");
    WalkExtend(DETOUR, ["s", "m"], "t");
  }
}
