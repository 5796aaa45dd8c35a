/*
 * ModManager: the server's three mod lists (required, optional, forbidden)
 * and the login-time check of a client's running mods against them.
 */
module ModManager {
  import opened Lists
  import opened Text
  import opened Packets
  import opened ServerState
  import opened UserManager_Joinings

  /** The package IDs read from a list's mod folders, lower-cased and kept
    * once each, in the order first seen. */
  function LoadedIds(ids: seq<string>): (r: seq<string>)
    ensures forall m :: m in r ==> NoUpper(m)
    ensures Distinct(r)
    ensures forall i :: 0 <= i < |ids| ==> ToLower(ids[i]) in r
    ensures forall k :: 0 <= k < |r| ==> exists i :: 0 <= i < |ids| && r[k] == ToLower(ids[i])
    decreases |ids|
  {
    if |ids| == 0 then []
    else
      var front := ids[..|ids| - 1];
      var prev := LoadedIds(front);
      var m := ToLower(ids[|ids| - 1]);
      ToLowerIdempotent(ids[|ids| - 1]);
      assert forall i :: 0 <= i < |front| ==> ids[i] == front[i];
      if m in prev then prev else prev + [m]
  }

  /** `if (!list.Contains(str.ToLower())) list.Add(str.ToLower())` over the IDs. */
  method LoadList(ids: seq<string>) returns (list: seq<string>)
    ensures list == LoadedIds(ids)
  {
    list := [];
    var i := 0;
    while i < |ids|
      invariant 0 <= i <= |ids|
      invariant list == LoadedIds(ids[..i])
    {
      assert ids[..i + 1][..i] == ids[..i];
      var m := ToLower(ids[i]);
      if m !in list {
        list := list + [m];
      }
      i := i + 1;
    }
    assert ids[..i] == ids;
  }

  const RequiredTag := "[Required] > "
  const DisallowedTag := "[Disallowed] > "
  const ForbiddenTag := "[Forbidden] > "

  /** One conflict entry per mod, each the tag followed by the mod's ID. */
  function Tagged(tag: string, mods: seq<string>): (r: seq<string>)
    ensures |r| == |mods|
    ensures forall i :: 0 <= i < |mods| ==> r[i] == tag + mods[i]
  {
    seq(|mods|, i requires 0 <= i < |mods| => tag + mods[i])
  }

  /** The mods of `wanted` that are not running, in `wanted` order. */
  function Missing(wanted: seq<string>, running: seq<string>): (r: seq<string>)
    ensures forall m :: m in r <==> m in wanted && m !in running
    decreases |wanted|
  {
    if |wanted| == 0 then []
    else
      var m := wanted[|wanted| - 1];
      Missing(wanted[..|wanted| - 1], running) + (if m !in running then [m] else [])
  }

  /** The running mods that are neither required nor optional, in running order. */
  function Unlisted(running: seq<string>, required: seq<string>, optional: seq<string>): (r: seq<string>)
    ensures forall m :: m in r <==> m in running && m !in required && m !in optional
    decreases |running|
  {
    if |running| == 0 then []
    else
      var m := running[|running| - 1];
      Unlisted(running[..|running| - 1], required, optional)
      + (if m !in required && m !in optional then [m] else [])
  }

  /** The forbidden mods that are running, in forbidden-list order. */
  function Present(forbidden: seq<string>, running: seq<string>): (r: seq<string>)
    ensures forall m :: m in r <==> m in forbidden && m in running
    decreases |forbidden|
  {
    if |forbidden| == 0 then []
    else
      var m := forbidden[|forbidden| - 1];
      Present(forbidden[..|forbidden| - 1], running) + (if m in running then [m] else [])
  }

  /** The conflict list CheckIfModConflict builds: missing required mods and
    * running mods on neither list, both only when the required list is not
    * empty, then running forbidden mods. */
  function Conflicts(required: seq<string>, optional: seq<string>, forbidden: seq<string>, running: seq<string>): seq<string>
  {
    (if |required| > 0
     then Tagged(RequiredTag, Missing(required, running)) + Tagged(DisallowedTag, Unlisted(running, required, optional))
     else [])
    + (if |forbidden| > 0 then Tagged(ForbiddenTag, Present(forbidden, running)) else [])
  }

  /** There is no conflict exactly when no forbidden mod runs and, if some
    * mod is required, every required mod runs and every running mod is
    * required or optional. With no required mod, any unlisted mod passes. */
  lemma NoConflictsIff(required: seq<string>, optional: seq<string>, forbidden: seq<string>, running: seq<string>)
    ensures |Conflicts(required, optional, forbidden, running)| == 0 <==>
      (|required| > 0 ==>
        (forall m :: m in required ==> m in running) &&
        (forall m :: m in running ==> m in required || m in optional)) &&
      (forall m :: m in forbidden ==> m !in running)
  {
    var missing, unlisted, present := Missing(required, running), Unlisted(running, required, optional), Present(forbidden, running);
    if |required| > 0 && exists m :: m in required && m !in running {
      var m :| m in required && m !in running;
      assert m in missing;
    }
    if |required| > 0 && exists m :: m in running && m !in required && m !in optional {
      var m :| m in running && m !in required && m !in optional;
      assert m in unlisted;
    }
    if exists m :: m in forbidden && m in running {
      var m :| m in forbidden && m in running;
      assert m in present;
    }
    if |required| > 0 && |missing| > 0 {
      assert missing[0] in missing;
    }
    if |required| > 0 && |unlisted| > 0 {
      assert unlisted[0] in unlisted;
    }
    if |forbidden| > 0 && |present| > 0 {
      assert present[0] in present;
    }
  }

  /** Tagging a list grown by one mod grows the tagged list by one entry. */
  lemma TaggedAppend(tag: string, mods: seq<string>, m: string)
    ensures Tagged(tag, mods + [m]) == Tagged(tag, mods) + [tag + m]
  {
    assert |Tagged(tag, mods + [m])| == |Tagged(tag, mods) + [tag + m]|;
  }

  /** `foreach (mod in loadedRequiredMods) if (!runningMods.Contains(mod)) Add("[Required] > " + mod)` */
  method CollectMissing(required: seq<string>, running: seq<string>) returns (r: seq<string>)
    ensures r == Tagged(RequiredTag, Missing(required, running))
  {
    r := [];
    var i := 0;
    while i < |required|
      invariant 0 <= i <= |required|
      invariant r == Tagged(RequiredTag, Missing(required[..i], running))
    {
      assert required[..i + 1][..i] == required[..i];
      if required[i] !in running {
        TaggedAppend(RequiredTag, Missing(required[..i], running), required[i]);
        r := r + [RequiredTag + required[i]];
      }
      i := i + 1;
    }
    assert required[..i] == required;
  }

  /** `foreach (mod in runningMods) if (!required.Contains(mod) && !optional.Contains(mod)) Add("[Disallowed] > " + mod)` */
  method CollectUnlisted(running: seq<string>, required: seq<string>, optional: seq<string>) returns (r: seq<string>)
    ensures r == Tagged(DisallowedTag, Unlisted(running, required, optional))
  {
    r := [];
    var j := 0;
    while j < |running|
      invariant 0 <= j <= |running|
      invariant r == Tagged(DisallowedTag, Unlisted(running[..j], required, optional))
    {
      assert running[..j + 1][..j] == running[..j];
      if running[j] !in required && running[j] !in optional {
        TaggedAppend(DisallowedTag, Unlisted(running[..j], required, optional), running[j]);
        r := r + [DisallowedTag + running[j]];
      }
      j := j + 1;
    }
    assert running[..j] == running;
  }

  /** `foreach (mod in loadedForbiddenMods) if (runningMods.Contains(mod)) Add("[Forbidden] > " + mod)` */
  method CollectPresent(forbidden: seq<string>, running: seq<string>) returns (r: seq<string>)
    ensures r == Tagged(ForbiddenTag, Present(forbidden, running))
  {
    r := [];
    var k := 0;
    while k < |forbidden|
      invariant 0 <= k <= |forbidden|
      invariant r == Tagged(ForbiddenTag, Present(forbidden[..k], running))
    {
      assert forbidden[..k + 1][..k] == forbidden[..k];
      if forbidden[k] in running {
        TaggedAppend(ForbiddenTag, Present(forbidden[..k], running), forbidden[k]);
        r := r + [ForbiddenTag + forbidden[k]];
      }
      k := k + 1;
    }
    assert forbidden[..k] == forbidden;
  }

  /** The conflict list of CheckIfModConflict, built in the source's order. */
  method CollectConflicts(required: seq<string>, optional: seq<string>, forbidden: seq<string>, running: seq<string>)
    returns (conflicting: seq<string>)
    ensures conflicting == Conflicts(required, optional, forbidden, running)
  {
    conflicting := [];
    if |required| > 0 {
      var missing := CollectMissing(required, running);
      var unlisted := CollectUnlisted(running, required, optional);
      conflicting := missing + unlisted;
    }
    if |forbidden| > 0 {
      var present := CollectPresent(forbidden, running);
      conflicting := conflicting + present;
    }
  }

  class ModManager {
    var loadedRequiredMods: seq<string>
    var loadedOptionalMods: seq<string>
    var loadedForbiddenMods: seq<string>

    /** Every loaded list holds lower-case IDs, each once. */
    predicate Valid()
      reads this
    {
      (forall m :: m in loadedRequiredMods ==> NoUpper(m)) && Distinct(loadedRequiredMods) &&
      (forall m :: m in loadedOptionalMods ==> NoUpper(m)) && Distinct(loadedOptionalMods) &&
      (forall m :: m in loadedForbiddenMods ==> NoUpper(m)) && Distinct(loadedForbiddenMods)
    }

    constructor ()
      ensures loadedRequiredMods == [] && loadedOptionalMods == [] && loadedForbiddenMods == []
      ensures Valid()
    {
      loadedRequiredMods := [];
      loadedOptionalMods := [];
      loadedForbiddenMods := [];
    }

    /** LoadMods: each list is cleared and refilled from the package IDs
      * found in its folders (a folder whose About.xml cannot be read adds
      * nothing). */
    method LoadMods(requiredIds: seq<string>, optionalIds: seq<string>, forbiddenIds: seq<string>)
      modifies this
      ensures loadedRequiredMods == LoadedIds(requiredIds)
      ensures loadedOptionalMods == LoadedIds(optionalIds)
      ensures loadedForbiddenMods == LoadedIds(forbiddenIds)
      ensures Valid()
    {
      loadedRequiredMods := LoadList(requiredIds);
      loadedOptionalMods := LoadList(optionalIds);
      loadedForbiddenMods := LoadList(forbiddenIds);
    }

    /** CheckIfModConflict: with no conflict, or for an admin, the running
      * mods are stored on the session and login goes on; otherwise the
      * session gets WrongMods with the conflict list, and ends. */
    method CheckIfModConflict(srv: Server, client: Client, runningMods: seq<string>) returns (conflict: bool)
      modifies srv`outbox, client`disconnectFlag, client`runningMods
      ensures conflict <==>
        |Conflicts(loadedRequiredMods, loadedOptionalMods, loadedForbiddenMods, runningMods)| > 0 && !client.isAdmin
      ensures !conflict ==>
        client.runningMods == runningMods && srv.outbox == old(srv.outbox) &&
        client.disconnectFlag == old(client.disconnectFlag)
      ensures conflict ==>
        client.runningMods == old(client.runningMods) && client.disconnectFlag &&
        srv.outbox == old(srv.outbox) + [Envelope(client, LoginResponsePacket(WrongMods,
          Conflicts(loadedRequiredMods, loadedOptionalMods, loadedForbiddenMods, runningMods)))]
    {
      var conflicting := CollectConflicts(loadedRequiredMods, loadedOptionalMods, loadedForbiddenMods, runningMods);
      if |conflicting| == 0 {
        client.runningMods := runningMods;
        return false;
      }
      if client.isAdmin {
        client.runningMods := runningMods;
        return false;
      }
      SendLoginResponse(srv, client, WrongMods, conflicting);
      return true;
    }
  }
}
