/** The order in which the child tasks of a graph are enumerated: that of their ids. */
module TaskOrder {
  import opened TextOrder
  import opened KernelTypes
  import opened KernelState

  /** The child tasks of a graph, as the fan-out enumerates them. */
  ghost function ChildTasks(g: Graph): (tasks: seq<SubtaskSpec>)
    ensures |tasks| == |Agents(g)|
  {
    InOrder(g.tasks, Agents(g))
  }

  method EnumerateChildTasks(g: Graph) returns (tasks: seq<SubtaskSpec>)
    ensures tasks == ChildTasks(g)
  {
    var rest := Agents(g);
    tasks := [];
    while rest != {}
      invariant rest <= g.tasks.Keys
      invariant tasks + InOrder(g.tasks, rest) == ChildTasks(g)
      decreases |rest|
    {
      var id := FindLeast(rest);
      InOrderStep(g.tasks, rest, id);
      tasks := tasks + [g.tasks[id]];
      rest := rest - {id};
    }
  }
}
