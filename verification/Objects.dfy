/** What the end of one object means for the poll table and for the scheduler together. */
module Objects {
  import PT = PollTable
  import opened PollLoop
  import opened Scheduler

  /** unregister_object: the object's rows become tombstones and its tasks are cancelled. */
  method UnregisterObject(table: PfdTable, schd: TaskScheduler, obj: nat)
    requires table.Valid() && schd.Chained()
    modifies table`pfdDefrag, table.pfdList, schd`entries, schd`chain, schd.chain`next
    ensures table.Valid() && table.View() == PT.UnregisterObject(old(table.View()), obj)
    ensures schd.Chained() && schd.Tasks() == DeleteAll(old(schd.Tasks()), obj)
    ensures forall s :: s in table.View().slots && s.ctxt == obj ==> s.fd == -1
    ensures forall t :: t in schd.Tasks() ==> t.ctxt != obj
  {
    table.UnregisterObj(obj);
    schd.DeleteContext(obj);
  }
}
