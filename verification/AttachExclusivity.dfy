/** Attach parameters of one hook provider: attaches are serialised, but a detach may come between the check of
    an attach and its insertion into the list of clients. */
module AttachExclusivity {
  import opened Compartments
  import opened Wrappers

  /** The client data of an attach: the declared size and, unless the pointer is NULL, the compartment it points to. */
  datatype ClientData = ClientData(size: nat, data: Option<nat>)
  {
    /** What the check of a later attach and the WFP filter condition see. */
    function Parameter(): nat {
      if data.Some? then data.value else UNSPECIFIED_COMPARTMENT_ID
    }

    predicate WellFormed() {
      size == 0 || (size == 4 && data.Some?)
    }

    /** What is checked for this attach: a size of zero counts as the wildcard, whatever the pointer. */
    function Requested(): nat
      requires WellFormed()
    {
      if size > 0 then data.value else UNSPECIFIED_COMPARTMENT_ID
    }

    predicate Matches(compartment: nat) {
      Covers(Parameter(), compartment)
    }
  }

  predicate Conflict(p: nat, q: nat) {
    p == UNSPECIFIED_COMPARTMENT_ID || q == UNSPECIFIED_COMPARTMENT_ID || p == q
  }

  /** A wildcard client is alone, or all parameters are distinct. */
  ghost predicate Exclusive(clients: seq<ClientData>) {
    forall i, j :: 0 <= i < j < |clients| ==> !Conflict(clients[i].Parameter(), clients[j].Parameter())
  }

  /** Exclusive parameters are exactly those with which no compartment is ever matched by two clients. */
  lemma ExclusiveExactly(clients: seq<ClientData>)
    ensures Exclusive(clients) <==>
            forall compartment, i, j :: 0 <= i < j < |clients| && compartment != UNSPECIFIED_COMPARTMENT_ID ==>
              !(clients[i].Matches(compartment) && clients[j].Matches(compartment))
  {
    if !Exclusive(clients) {
      var i, j :| 0 <= i < j < |clients| && Conflict(clients[i].Parameter(), clients[j].Parameter());
      var p, q := clients[i].Parameter(), clients[j].Parameter();
      var compartment := if p != UNSPECIFIED_COMPARTMENT_ID then p else if q != UNSPECIFIED_COMPARTMENT_ID then q else 1;
      assert clients[i].Matches(compartment) && clients[j].Matches(compartment);
    }
  }

  /** A client matches the compartment it points to, or every compartment when it points to none or to the wildcard. */
  lemma MatchesExactly(client: ClientData, compartment: nat)
    ensures client.Matches(compartment) <==> client.data.None? || client.data == Some(0) || client.data == Some(compartment)
  {
  }

  ghost predicate Admits(clients: seq<ClientData>, client: ClientData) {
    && client.WellFormed()
    && (client.Requested() == UNSPECIFIED_COMPARTMENT_ID ==> clients == [])
    && (client.Requested() != UNSPECIFIED_COMPARTMENT_ID ==>
          forall i :: 0 <= i < |clients| ==> !Conflict(client.Requested(), clients[i].Parameter()))
  }

  /** The check admits exactly the clients that keep the list exclusive, except that a client which declares no
      data, and yet points to a compartment, is admitted only to an empty list. */
  lemma AdmitsExactly(clients: seq<ClientData>, client: ClientData)
    requires Exclusive(clients) && client.WellFormed()
    ensures Admits(clients, client) <==>
            Exclusive(clients + [client]) && (client.Requested() == client.Parameter() || clients == [])
  {
    var after := clients + [client];
    if Admits(clients, client) {
      forall i, j | 0 <= i < j < |after| ensures !Conflict(after[i].Parameter(), after[j].Parameter()) {
        assert j < |clients| ==> after[j] == clients[j];
      }
    } else if clients != [] && client.Requested() == client.Parameter() {
      var k :| 0 <= k < |clients| && Conflict(client.Parameter(), clients[k].Parameter());
      assert Conflict(after[k].Parameter(), after[|clients|].Parameter());
    }
  }

  /** In terms of the data alone: a client for one compartment is admitted exactly when every other is for one other
      compartment; any other well-formed client only to an empty list. */
  lemma AdmitsByData(clients: seq<ClientData>, client: ClientData)
    ensures client.size == 4 && client.data.Some? && client.data.value != 0 ==>
      (Admits(clients, client) <==> forall i :: 0 <= i < |clients| ==>
         clients[i].data.Some? && clients[i].data.value != 0 && clients[i].data != client.data)
    ensures client.size == 0 || (client.size == 4 && client.data == Some(0)) ==> (Admits(clients, client) <==> clients == [])
    ensures client.size != 0 && (client.size != 4 || client.data.None?) ==> !Admits(clients, client)
  {
  }

  lemma SublistExclusive(clients: seq<ClientData>, k: nat)
    requires Exclusive(clients) && k < |clients|
    ensures Exclusive(clients[..k] + clients[k + 1..])
  {
  }

  class HookProvider {
    var clients: seq<ClientData>
    /** A client that passed the check and is not yet in the list. */
    var pending: Option<ClientData>

    ghost function Known(): seq<ClientData>
      reads this
    {
      clients + (if pending.Some? then [pending.value] else [])
    }

    ghost predicate Valid()
      reads this
    {
      Exclusive(Known())
    }

    constructor ()
      ensures Valid() && clients == [] && pending.None?
    {
      clients, pending := [], None;
    }

    /** Walks the client list under the shared lock. */
    method CheckAttachParameter(requested: nat) returns (allowed: bool)
      ensures allowed <==>
        && (requested == UNSPECIFIED_COMPARTMENT_ID ==> clients == [])
        && (requested != UNSPECIFIED_COMPARTMENT_ID ==>
              forall i :: 0 <= i < |clients| ==> !Conflict(requested, clients[i].Parameter()))
    {
      if requested == UNSPECIFIED_COMPARTMENT_ID {
        return clients == [];
      }
      for link := 0 to |clients|
        invariant forall i :: 0 <= i < link ==> !Conflict(requested, clients[i].Parameter())
      {
        var parameter := clients[link].Parameter();
        if parameter == UNSPECIFIED_COMPARTMENT_ID || parameter == requested {
          return false;
        }
      }
      return true;
    }

    /** The attach callback up to the check. */
    method BeginAttach(client: ClientData) returns (admitted: bool)
      requires Valid() && pending.None?
      modifies this`pending
      ensures Valid() && admitted == Admits(clients, client)
      ensures pending == if admitted then Some(client) else None
    {
      if client.size > 0 && (client.size != 4 || client.data.None?) {
        return false;
      }
      assert clients + [] == clients;
      admitted := CheckAttachParameter(client.Requested());
      if admitted {
        AdmitsExactly(clients, client);
        pending := Some(client);
      }
    }

    /** The rest of the attach: the client is inserted, unless a later part of the callback failed. */
    method FinishAttach(succeeds: bool)
      requires Valid() && pending.Some?
      modifies this
      ensures Valid() && pending.None?
      ensures clients == old(clients) + (if succeeds then [old(pending).value] else [])
    {
      if succeeds {
        clients := clients + [pending.value];
      } else {
        SublistExclusive(Known(), |clients|);
        assert Known()[..|clients|] + Known()[|clients| + 1..] == clients;
      }
      pending := None;
      assert clients + [] == clients;
    }

    method Detach(k: nat)
      requires Valid() && k < |clients|
      modifies this`clients
      ensures Valid() && clients == old(clients)[..k] + old(clients)[k + 1..]
    {
      SublistExclusive(Known(), k);
      ghost var known := Known();
      clients := clients[..k] + clients[k + 1..];
      assert Known() == known[..k] + known[k + 1..];
    }
  }
}
