/** The three-way merge of backend roles: what the old secret listed and the new one does not is taken
    away from the server's list, and what the new secret lists is added. */
module RoleMerge {
  import opened Basics

  /** The roles to take away. */
  function Excluded(oldRoles: seq<string>, newRoles: seq<string>): seq<string> {
    Filter(oldRoles, role => role !in newRoles)
  }

  function Kept(oldRoles: seq<string>, newRoles: seq<string>, server: seq<string>): seq<string> {
    Filter(server, role => role !in Excluded(oldRoles, newRoles))
  }

  /** Appends the roles that are not there yet. */
  function AddMissing(roles: seq<string>, newRoles: seq<string>): seq<string>
    decreases |newRoles|
  {
    if newRoles == [] then roles
    else AddMissing(if newRoles[0] in roles then roles else roles + [newRoles[0]], newRoles[1..])
  }

  function Merge(oldRoles: seq<string>, newRoles: seq<string>, server: seq<string>): seq<string> {
    AddMissing(Kept(oldRoles, newRoles, server), newRoles)
  }

  method MergeBackendRoles(oldRoles: seq<string>, newRoles: seq<string>, server: seq<string>)
    returns (result: seq<string>)
    ensures result == Merge(oldRoles, newRoles, server)
  {
    var exclude: seq<string> := [];
    for i := 0 to |oldRoles|
      invariant exclude == Excluded(oldRoles[..i], newRoles)
    {
      assert oldRoles[..i + 1] == oldRoles[..i] + [oldRoles[i]];
      FilterAppend(oldRoles[..i], [oldRoles[i]], role => role !in newRoles);
      FilterOne(oldRoles[i], role => role !in newRoles);
      if oldRoles[i] !in newRoles {
        exclude := exclude + [oldRoles[i]];
      }
    }
    assert oldRoles[..|oldRoles|] == oldRoles;
    result := [];
    for i := 0 to |server|
      invariant result == Kept(oldRoles, newRoles, server[..i])
    {
      assert server[..i + 1] == server[..i] + [server[i]];
      FilterAppend(server[..i], [server[i]], role => role !in Excluded(oldRoles, newRoles));
      FilterOne(server[i], role => role !in Excluded(oldRoles, newRoles));
      if server[i] !in exclude {
        result := result + [server[i]];
      }
    }
    assert server[..|server|] == server;
    for i := 0 to |newRoles|
      invariant AddMissing(result, newRoles[i..]) == Merge(oldRoles, newRoles, server)
    {
      assert newRoles[i..][0] == newRoles[i] && newRoles[i..][1..] == newRoles[i + 1..];
      if newRoles[i] !in result {
        result := result + [newRoles[i]];
      }
    }
  }

  lemma FilterOne<T>(x: T, keep: T -> bool)
    ensures Filter([x], keep) == if keep(x) then [x] else []
  {
    assert [x][1..] == [];
  }

  // ----- What the merge yields -----

  lemma {:induction false} AddMissingMember(roles: seq<string>, newRoles: seq<string>, role: string)
    ensures role in AddMissing(roles, newRoles) <==> role in roles || role in newRoles
    decreases |newRoles|
  {
    if newRoles != [] {
      AddMissingMember(if newRoles[0] in roles then roles else roles + [newRoles[0]], newRoles[1..], role);
    }
  }

  /** Exactly the server's roles without those that were withdrawn, together with the new ones. */
  lemma MergeExactly(oldRoles: seq<string>, newRoles: seq<string>, server: seq<string>, role: string)
    ensures role in Merge(oldRoles, newRoles, server) <==>
            (role in server && !(role in oldRoles && role !in newRoles)) || role in newRoles
  {
    AddMissingMember(Kept(oldRoles, newRoles, server), newRoles, role);
    FilterMember(server, r => r !in Excluded(oldRoles, newRoles), role);
    FilterMember(oldRoles, r => r !in newRoles, role);
  }

  /** Behind the kept roles come only roles that were missing, each once. */
  lemma {:induction false} AddMissingAppends(roles: seq<string>, newRoles: seq<string>)
    ensures roles <= AddMissing(roles, newRoles)
    ensures forall role: string :: multiset(AddMissing(roles, newRoles))[role]
              == if role in roles then multiset(roles)[role] else if role in newRoles then 1 else 0
    decreases |newRoles|
  {
    if newRoles != [] {
      AddMissingAppends(if newRoles[0] in roles then roles else roles + [newRoles[0]], newRoles[1..]);
    }
  }

  lemma {:induction false} AddMissingSnoc(roles: seq<string>, newRoles: seq<string>, role: string)
    ensures var front := AddMissing(roles, newRoles);
            AddMissing(roles, newRoles + [role]) == if role in front then front else front + [role]
    decreases |newRoles|
  {
    if newRoles == [] {
      assert ([] + [role])[1..] == [];
    } else {
      assert (newRoles + [role])[0] == newRoles[0] && (newRoles + [role])[1..] == newRoles[1..] + [role];
      AddMissingSnoc(if newRoles[0] in roles then roles else roles + [newRoles[0]], newRoles[1..], role);
    }
  }

  /** The roles that are appended come in the order in which the new secret names them first. */
  lemma {:induction false} NewRolesInOrder(roles: seq<string>, newRoles: seq<string>, i: nat, j: nat)
    requires |roles| <= i < j < |AddMissing(roles, newRoles)|
    ensures var all := AddMissing(roles, newRoles);
            exists p, q | 0 <= p < q < |newRoles| ::
              newRoles[p] == all[i] && newRoles[q] == all[j] && all[j] !in newRoles[..q]
    decreases |newRoles|
  {
    var n := |newRoles| - 1;
    var front, role := newRoles[..n], newRoles[n];
    assert newRoles == front + [role];
    AddMissingSnoc(roles, front, role);
    var earlier := AddMissing(roles, front);
    if j < |earlier| {
      NewRolesInOrder(roles, front, i, j);
      var p, q :| 0 <= p < q < n && front[p] == earlier[i] && front[q] == earlier[j] && earlier[j] !in front[..q];
      assert newRoles[p] == front[p] && newRoles[q] == front[q] && newRoles[..q] == front[..q];
    } else {
      AddMissingAppends(roles, front);
      AddMissingMember(roles, front, role);
      AppendedIsNew(roles, front, i);
      var p :| 0 <= p < n && front[p] == earlier[i];
      assert newRoles[p] == front[p] && newRoles[..n] == front;
    }
  }

  lemma {:induction false} AppendedIsNew(roles: seq<string>, newRoles: seq<string>, i: nat)
    requires |roles| <= i < |AddMissing(roles, newRoles)|
    ensures AddMissing(roles, newRoles)[i] in newRoles
    decreases |newRoles|
  {
    var n := |newRoles| - 1;
    var front, role := newRoles[..n], newRoles[n];
    assert newRoles == front + [role];
    AddMissingSnoc(roles, front, role);
    if i < |AddMissing(roles, front)| {
      AppendedIsNew(roles, front, i);
    }
  }

  /** The server's order is kept, new roles follow it, and no role is repeated that was not repeated on
      the server. */
  lemma MergeKeepsOrder(oldRoles: seq<string>, newRoles: seq<string>, server: seq<string>)
    ensures Kept(oldRoles, newRoles, server) <= Merge(oldRoles, newRoles, server)
    ensures forall role: string :: multiset(Merge(oldRoles, newRoles, server))[role]
              <= if multiset(server)[role] >= 1 then multiset(server)[role] else 1
  {
    var kept := Kept(oldRoles, newRoles, server);
    AddMissingAppends(kept, newRoles);
    forall role: string
      ensures multiset(kept)[role] <= multiset(server)[role]
    {
      FilterCount(server, r => r !in Excluded(oldRoles, newRoles), role);
    }
  }

  lemma {:induction false} FilterCount<T>(xs: seq<T>, keep: T -> bool, x: T)
    ensures multiset(Filter(xs, keep))[x] == if keep(x) then multiset(xs)[x] else 0
  {
    if xs != [] {
      FilterCount(xs[1..], keep, x);
      assert xs == [xs[0]] + xs[1..];
    }
  }

  // ----- Merging again -----

  lemma {:induction false} FilterAll<T>(xs: seq<T>, keep: T -> bool)
    requires forall x <- xs :: keep(x)
    ensures Filter(xs, keep) == xs
  {
    if xs != [] {
      assert forall x <- xs[1..] :: x in xs;
      FilterAll(xs[1..], keep);
      assert xs == [xs[0]] + xs[1..];
    }
  }

  lemma {:induction false} NothingMissing(roles: seq<string>, newRoles: seq<string>)
    requires forall role <- newRoles :: role in roles
    ensures AddMissing(roles, newRoles) == roles
    decreases |newRoles|
  {
    if newRoles != [] {
      assert forall role <- newRoles[1..] :: role in newRoles;
      NothingMissing(roles, newRoles[1..]);
    }
  }

  /** A merge is settled when nothing excluded is in it and nothing new is missing. */
  lemma Settled(oldRoles: seq<string>, newRoles: seq<string>, merged: seq<string>)
    requires forall role <- merged :: !(role in oldRoles && role !in newRoles)
    requires forall role <- newRoles :: role in merged
    ensures Merge(oldRoles, newRoles, merged) == merged
  {
    forall role <- merged
      ensures role !in Excluded(oldRoles, newRoles)
    {
      FilterMember(oldRoles, r => r !in newRoles, role);
    }
    FilterAll(merged, role => role !in Excluded(oldRoles, newRoles));
    NothingMissing(merged, newRoles);
  }

  /** Retrying changes nothing: neither with the same secrets nor after the new one has become the old. */
  lemma MergeAgain(oldRoles: seq<string>, newRoles: seq<string>, server: seq<string>)
    ensures Merge(oldRoles, newRoles, Merge(oldRoles, newRoles, server)) == Merge(oldRoles, newRoles, server)
    ensures Merge(newRoles, newRoles, Merge(oldRoles, newRoles, server)) == Merge(oldRoles, newRoles, server)
  {
    var merged := Merge(oldRoles, newRoles, server);
    forall role: string
      ensures role in merged ==> !(role in oldRoles && role !in newRoles)
      ensures role in newRoles ==> role in merged
    {
      MergeExactly(oldRoles, newRoles, server, role);
    }
    Settled(oldRoles, newRoles, merged);
    Settled(newRoles, newRoles, merged);
  }
}
