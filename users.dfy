/** `listAgents`: the `by_role` index read for role "agent". */
module Users {
  import opened Store
  import opened Schema
  import Auth

  /** The collected users whose role is agent, in table order. */
  function AgentsIn(all: seq<Doc<User>>): (r: seq<Doc<User>>)
    ensures forall d :: d in r <==> d in all && d.value.role == Agent
    ensures IsSubsequence(r, all)
  {
    FilterKeepsOrder(all, (d: Doc<User>) => d.value.role == Agent);
    Filter(all, (d: Doc<User>) => d.value.role == Agent)
  }

  /** `listAgents`: every agent and only agents, so never an admin or a
      customer, oldest first (the index orders equal roles by creation).
      A function of the registry: it changes nothing. */
  function ListAgents(registry: Auth.UserRegistry): (r: seq<Doc<User>>)
    reads registry
    requires registry.Valid()
    ensures forall d :: d in r ==> d.id in registry.users && registry.users[d.id] == d.value && d.value.role == Agent
    ensures forall id :: id in registry.users && registry.users[id].role == Agent ==> Doc(id, registry.users[id]) in r
    ensures forall d :: d in r ==> d.value.role != Admin && d.value.role != Customer
    ensures forall i, j :: 0 <= i < j < |r| ==> r[i].id < r[j].id
  {
    var all := registry.All();
    var r := AgentsIn(all);
    SubsequenceIncreasing(r, all);
    r
  }
}
