/**
 The context: it collects the completions of its proactors for the executor, proactor by proactor in
 the order of its map.
 */
module Context {
  import opened Lists
  import opened Select

  class Context {
    const proactors: seq<Select>

    constructor (proactors: seq<Select>)
      ensures this.proactors == proactors
    {
      this.proactors := proactors;
    }

    /** The completions waiting in each proactor. */
    ghost function Waiting(): (r: seq<seq<Completion>>)
      reads proactors
      ensures |r| == |proactors| && forall i :: 0 <= i < |r| ==> r[i] == proactors[i].completedTask
    {
      seq(|proactors|, i requires 0 <= i < |proactors| reads proactors => proactors[i].completedTask)
    }

    /** Every completion is handed over once, in order, and the registrations are left alone. */
    method GetProactorTasks() returns (tasks: seq<Completion>)
      requires forall i, j :: 0 <= i < j < |proactors| ==> proactors[i] != proactors[j]
      modifies proactors
      ensures tasks == Concat(old(Waiting()))
      ensures forall i :: 0 <= i < |proactors| ==> proactors[i].View() == old(proactors[i].View()).(completed := [])
    {
      hide Concat;
      ghost var lists := Waiting();
      tasks := [];
      assert Concat(lists[..0]) == [] by { ConcatEmpty<Completion>(); }
      for i := 0 to |proactors|
        invariant tasks == Concat(lists[..i])
        invariant forall k :: 0 <= k < |proactors| ==>
                    proactors[k].View() == if k < i then old(proactors[k].View()).(completed := [])
                        else old(proactors[k].View())
      {
        ConcatSnoc(lists, i);
        assert proactors[i].View().completed == lists[i];
        var harvested := proactors[i].Harvest();
        tasks := tasks + harvested;
      }
      assert lists[..|proactors|] == lists;
    }
  }
}
