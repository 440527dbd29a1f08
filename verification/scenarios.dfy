/** Concrete exchanges with the task API, traced through the model. */
module Scenarios {
  import opened Wrappers
  import opened Json
  import Endpoint
  import Client
  import Partition
  import Editing

  const BuyMilk: Partition.Task :=
    map["taskId" := JStr("1"), "title" := JStr("Buy milk"), "dueDate" := JStr("2024-01-01"), "completed" := JBool(false)]

  /** A listing of one pending task, fetched and then split, puts it, and
      only it, in the pending section; the completed section is empty. */
  lemma ListingOnePendingTask()
    ensures var reply := Client.Responded(Client.Response(200, Client.Parsed(JObject(map["tasks" := JArray([JObject(BuyMilk)])])), ""));
      var tasks := Partition.TaskList(Client.ListTasks(Endpoint.DefaultEndpoint, reply).value);
      && tasks == Some([BuyMilk])
      && Partition.PendingTasks(tasks.value) == [BuyMilk]
      && Partition.CompletedTasks(tasks.value) == []
      && BuyMilk["title"] == JStr("Buy milk")
  {
    Endpoint.DefaultEndpointConfigured();
    var items := [JObject(BuyMilk)];
    assert items[1..] == [];
    assert Partition.ObjectsOf(items[1..]) == Some([]);
    assert [items[0].fields] + [] == [BuyMilk];
    assert Partition.ObjectsOf(items) == Some([BuyMilk]);
    assert !Partition.IsCompleted(BuyMilk);
  }

  const PayBills: Dict :=
    map["taskId" := JStr("2"), "title" := JStr("Pay bills"), "dueDate" := JStr("2024-02-01"), "completed" := JBool(false)]

  /** Adding a task returns the created task object from the `task` field;
      a bare JSON list instead is a malformed response, not a crash. */
  lemma CreateTaskReplies()
    ensures var ok := Client.Responded(Client.Response(201, Client.Parsed(JObject(map["task" := JObject(PayBills)])), ""));
      var c := Client.AddTask(Endpoint.DefaultEndpoint, "Pay bills", "2024-02-01", ok);
      c.value == Some(JObject(PayBills)) && c.report == Client.Done && PayBills["taskId"] == JStr("2")
    ensures var bare := Client.Responded(Client.Response(200, Client.Parsed(JArray([JObject(PayBills)])), ""));
      var c := Client.AddTask(Endpoint.DefaultEndpoint, "Pay bills", "2024-02-01", bare);
      c.value == None && c.report == Client.Malformed
  {
    Endpoint.DefaultEndpointConfigured();
  }

  /** A delete answered with 404 and `{"message": "not found"}` fails with
      the detail `not found`; the editor of another task stays open. */
  lemma DeleteNotFound()
    ensures var reply := Client.Responded(Client.Response(404, Client.Parsed(JObject(map["message" := JStr("not found")])), ""));
      var c := Client.DeleteTask(Endpoint.DefaultEndpoint, "1", reply);
      && c.value == Some(false)
      && c.report == Client.RequestFailed(JStr("not found"))
      && Editing.Next(Some(JStr("7")), Editing.DeletePressed(Some(JStr("1")), c.value)) == Some(JStr("7"))
  {
    Endpoint.DefaultEndpointConfigured();
  }
}
