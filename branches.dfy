/** The branches table. The schema file declares no branches table; the
    record shape is the one the mutations write. */
module Branches {
  import opened Store

  /** A branch record; `managerId` is a user id. */
  datatype Branch = Branch(
    name: string,
    address: string,
    phone: Option<string>,
    managerId: Option<nat>,
    createdAt: int)

  /** The arguments of `create`. */
  datatype BranchArgs = BranchArgs(name: string, address: string, phone: Option<string>, managerId: Option<nat>)

  /** The optional arguments of `update`, each `None` when left undefined. */
  datatype BranchUpdate = BranchUpdate(
    name: Option<string>,
    address: Option<string>,
    phone: Option<string>,
    managerId: Option<nat>)

  /** The keys `update` may patch. */
  datatype BranchField = Name | Address | Phone | ManagerId

  /** A value held in `filteredUpdates`: text, or a user id. */
  datatype BranchValue = Text(text: string) | UserRef(user: nat)

  function TextEntry(k: BranchField, v: Option<string>): (BranchField, Option<BranchValue>) {
    (k, if v.Some? then Some(Text(v.value)) else None)
  }

  /** `Object.entries(updates)`, in declaration order. */
  function UpdateEntries(u: BranchUpdate): (e: seq<(BranchField, Option<BranchValue>)>)
    ensures |e| == 4 && DistinctKeys(e)
  {
    [TextEntry(Name, u.name), TextEntry(Address, u.address), TextEntry(Phone, u.phone),
     (ManagerId, if u.managerId.Some? then Some(UserRef(u.managerId.value)) else None)]
  }

  function PatchText(f: map<BranchField, BranchValue>, k: BranchField, current: string): string {
    if k in f && f[k].Text? then f[k].text else current
  }

  /** `ctx.db.patch(id, filteredUpdates)`: no timestamp is touched. */
  function ApplyPatch(b: Branch, f: map<BranchField, BranchValue>): Branch {
    b.(name := PatchText(f, Name, b.name),
       address := PatchText(f, Address, b.address),
       phone := if Phone in f && f[Phone].Text? then Some(f[Phone].text) else b.phone,
       managerId := if ManagerId in f && f[ManagerId].UserRef? then Some(f[ManagerId].user) else b.managerId)
  }

  /** The record `update` leaves behind: every defined argument replaces its
      field, every undefined one leaves it alone, and `createdAt` is kept. */
  function Updated(b: Branch, u: BranchUpdate): (r: Branch)
    ensures r.name == u.name.GetOr(b.name)
    ensures r.address == u.address.GetOr(b.address)
    ensures r.phone == (if u.phone.Some? then u.phone else b.phone)
    ensures r.managerId == (if u.managerId.Some? then u.managerId else b.managerId)
    ensures r.createdAt == b.createdAt
  {
    var e := UpdateEntries(u);
    DefinedEntry(e, 0); DefinedEntry(e, 1); DefinedEntry(e, 2); DefinedEntry(e, 3);
    ApplyPatch(b, Defined(e))
  }

  /** An update with every argument undefined leaves the branch as it was. */
  lemma UpdateNothing(b: Branch)
    ensures Updated(b, BranchUpdate(None, None, None, None)) == b
  {
  }

  class BranchTable {
    var rows: map<nat, Branch>
    var nextId: nat

    ghost predicate Valid()
      reads this
    {
      forall id :: id in rows ==> id < nextId
    }

    constructor ()
      ensures Valid() && rows == map[]
    {
      rows := map[];
      nextId := 0;
    }

    /** `list`: every branch, newest first. */
    function List(): (r: seq<Doc<Branch>>)
      reads this
      requires Valid()
      ensures forall d :: d in r <==> d.id in rows && rows[d.id] == d.value
      ensures forall i, j :: 0 <= i < j < |r| ==> r[i].id > r[j].id
    {
      Descending(rows, nextId)
    }

    /** `create`: exactly one new branch with the given fields and the clock as
        `createdAt`; names are not checked for uniqueness. */
    method Create(args: BranchArgs, now: nat) returns (id: nat)
      requires Valid()
      modifies this
      ensures Valid()
      ensures id !in old(rows)
      ensures rows == old(rows)[id := Branch(args.name, args.address, args.phone, args.managerId, now)]
    {
      id := nextId;
      rows := rows[id := Branch(args.name, args.address, args.phone, args.managerId, now)];
      nextId := nextId + 1;
    }

    /** `update`: a partial update of one branch, nothing else changes. */
    method Update(id: nat, u: BranchUpdate)
      requires Valid() && id in rows
      modifies this
      ensures Valid() && nextId == old(nextId)
      ensures rows == old(rows)[id := Updated(old(rows)[id], u)]
    {
      var filtered := FilterDefined(UpdateEntries(u));
      rows := rows[id := ApplyPatch(rows[id], filtered)];
    }

    /** `remove`: a hard delete of exactly this branch. */
    method Remove(id: nat)
      requires Valid() && id in rows
      modifies this
      ensures Valid() && nextId == old(nextId)
      ensures rows == old(rows) - {id}
    {
      rows := rows - {id};
    }
  }
}
