/**
 * What the convoy executor's phases guarantee, stated over the logs and the
 * leg map that `Convoy` specifies them by.
 */
module ConvoyFacts {
  import opened Text
  import opened Extract
  import opened Convoy

  /** Leg `i` is the last among the first `n` legs with its ID whose bead was created. */
  ghost predicate LastCreated(run: Run, world: World, draw0: nat, n: nat, i: nat)
    requires i < n <= |run.f.legs|
  {
    && Created(run, world, draw0, i)
    && forall j :: i < j < n && run.f.legs[j].id == run.f.legs[i].id ==> !Created(run, world, draw0, j)
  }

  /** A leg ID is stored exactly when some leg with that ID had its bead created. */
  lemma {:induction false} StoredIffCreated(run: Run, world: World, draw0: nat, n: nat, k: String)
    requires n <= |run.f.legs|
    ensures k in LegBeads(run, world, draw0, n)
      <==> exists i :: 0 <= i < n && run.f.legs[i].id == k && Created(run, world, draw0, i)
  {
    if n > 0 {
      StoredIffCreated(run, world, draw0, n - 1, k);
    }
  }

  /** The bead stored for an ID is the one of the last created leg with that ID: later duplicates overwrite earlier ones. */
  lemma LastDuplicateWins(run: Run, world: World, draw0: nat, n: nat, i: nat)
    requires i < n <= |run.f.legs|
    requires LastCreated(run, world, draw0, n, i)
    ensures run.f.legs[i].id in LegBeads(run, world, draw0, n)
    ensures LegBeads(run, world, draw0, n)[run.f.legs[i].id] == LegBeadId(world, draw0 + i)
  {
    var ids, beads, created := LegIds(run), LegBeadIds(run, world, draw0), CreatedFlags(run, world, draw0);
    forall j | i < j < n && ids[j] == ids[i]
      ensures !created[j]
    {
      LaterLegKeeps(run, world, draw0, n, i, j);
    }
    LastWriteWins(ids, beads, created, n, i);
    WrittenBead(run, world, draw0, n, i);
  }

  /** What the written map keeps for leg `i`'s ID, the leg map keeps too. */
  lemma WrittenBead(run: Run, world: World, draw0: nat, n: nat, i: nat)
    requires i < n <= |run.f.legs|
    requires var w := WriteAll(LegIds(run), LegBeadIds(run, world, draw0), CreatedFlags(run, world, draw0), n);
      LegIds(run)[i] in w && w[LegIds(run)[i]] == LegBeadIds(run, world, draw0)[i]
    ensures run.f.legs[i].id in LegBeads(run, world, draw0, n)
    ensures LegBeads(run, world, draw0, n)[run.f.legs[i].id] == LegBeadId(world, draw0 + i)
  {
    LegBeadsWritten(run, world, draw0, n);
    assert LegIds(run)[i] == run.f.legs[i].id;
    assert LegBeadIds(run, world, draw0)[i] == LegBeadId(world, draw0 + i);
  }

  /** The map built by writing `beads[j]` under `keys[j]`, in order, for every `j < n` whose `writes[j]` holds. */
  function WriteAll(keys: seq<String>, beads: seq<String>, writes: seq<bool>, n: nat): map<String, String>
    requires n <= |keys| && n <= |beads| && n <= |writes|
  {
    if n == 0 then map[]
    else
      var m := WriteAll(keys, beads, writes, n - 1);
      if writes[n - 1] then m[keys[n - 1] := beads[n - 1]] else m
  }

  /** A write that no later write to the same key follows is the one the map keeps. */
  lemma {:induction false} LastWriteWins(keys: seq<String>, beads: seq<String>, writes: seq<bool>, n: nat, i: nat)
    requires i < n <= |keys| && n <= |beads| && n <= |writes|
    requires writes[i]
    requires forall j :: i < j < n && keys[j] == keys[i] ==> !writes[j]
    ensures keys[i] in WriteAll(keys, beads, writes, n)
    ensures WriteAll(keys, beads, writes, n)[keys[i]] == beads[i]
  {
    if i < n - 1 {
      LastWriteWins(keys, beads, writes, n - 1, i);
    }
  }

  function LegIds(run: Run): (r: seq<String>)
    ensures |r| == |run.f.legs|
  {
    seq(|run.f.legs|, j requires 0 <= j < |run.f.legs| => run.f.legs[j].id)
  }

  function LegBeadIds(run: Run, world: World, draw0: nat): (r: seq<String>)
    ensures |r| == |run.f.legs|
  {
    seq(|run.f.legs|, j requires 0 <= j < |run.f.legs| => LegBeadId(world, draw0 + j))
  }

  ghost function CreatedFlags(run: Run, world: World, draw0: nat): (r: seq<bool>)
    ensures |r| == |run.f.legs|
  {
    seq(|run.f.legs|, j requires 0 <= j < |run.f.legs| => Created(run, world, draw0, j))
  }

  /** The leg map is the map written by the created legs, in order. */
  lemma {:induction false} LegBeadsWritten(run: Run, world: World, draw0: nat, n: nat)
    requires n <= |run.f.legs|
    ensures LegBeads(run, world, draw0, n) == WriteAll(LegIds(run), LegBeadIds(run, world, draw0), CreatedFlags(run, world, draw0), n)
  {
    if n > 0 {
      LegBeadsWritten(run, world, draw0, n - 1);
      assert CreatedFlags(run, world, draw0)[n - 1] == Created(run, world, draw0, n - 1);
    }
  }

  /** A leg after the last creation of an ID does not overwrite that ID's entry. */
  lemma LaterLegKeeps(run: Run, world: World, draw0: nat, n: nat, i: nat, m: nat)
    requires i < m < n <= |run.f.legs|
    requires LastCreated(run, world, draw0, n, i)
    ensures run.f.legs[m].id == run.f.legs[i].id ==> !Created(run, world, draw0, m)
  {
  }

  /** Every stored bead is the bead of a created leg with that ID. */
  lemma {:induction false} StoredBeadWasCreated(run: Run, world: World, draw0: nat, n: nat, k: String)
    requires n <= |run.f.legs|
    requires k in LegBeads(run, world, draw0, n)
    ensures exists i :: (0 <= i < n && run.f.legs[i].id == k && Created(run, world, draw0, i)
                         && LegBeads(run, world, draw0, n)[k] == LegBeadId(world, draw0 + i))
  {
    var m := LegBeads(run, world, draw0, n - 1);
    if Created(run, world, draw0, n - 1) && run.f.legs[n - 1].id == k {
      assert run.f.legs[n - 1].id == k && Created(run, world, draw0, n - 1)
        && LegBeads(run, world, draw0, n)[k] == LegBeadId(world, draw0 + n - 1);
    } else {
      StoredBeadWasCreated(run, world, draw0, n - 1, k);
    }
  }

  /**
   * In a log of leg commands, every command creates or tracks a bead, every
   * tracking follows the successful creation of the same bead, and every
   * successful creation is followed by its tracking.
   */
  ghost predicate TracksFollowCreates(log: seq<Command>, world: World, convoyId: String) {
    && (forall j :: 0 <= j < |log| ==> log[j].Create? || log[j].Track?)
    && (forall j :: 0 <= j < |log| && log[j].Track? ==>
          0 < j && log[j - 1].Create? && world.succeeds(log[j - 1]) && log[j] == Track(convoyId, log[j - 1].id))
    && (forall j :: 0 <= j < |log| && log[j].Create? && world.succeeds(log[j]) ==>
          j + 1 < |log| && log[j + 1] == Track(convoyId, log[j].id))
  }

  /** A leg whose creation fails is never tracked; a created one is tracked right after. */
  lemma {:induction false} LegsAreTrackedIffCreated(run: Run, world: World, convoyId: String, draw0: nat, n: nat)
    requires n <= |run.f.legs|
    ensures TracksFollowCreates(LegsLog(run, world, convoyId, draw0, n), world, convoyId)
  {
    if n > 0 {
      LegsAreTrackedIffCreated(run, world, convoyId, draw0, n - 1);
      LegsLogStep(run, world, convoyId, draw0, n);
    }
  }

  /** One more leg keeps creations and trackings paired. */
  lemma LegsLogStep(run: Run, world: World, convoyId: String, draw0: nat, n: nat)
    requires 0 < n <= |run.f.legs|
    requires TracksFollowCreates(LegsLog(run, world, convoyId, draw0, n - 1), world, convoyId)
    ensures TracksFollowCreates(LegsLog(run, world, convoyId, draw0, n), world, convoyId)
  {
    var prev := LegsLog(run, world, convoyId, draw0, n - 1);
    var seg := LegCommands(run, world, convoyId, draw0, n - 1);
    assert LegsLog(run, world, convoyId, draw0, n) == prev + seg;
    LegCommandsPaired(run, world, convoyId, draw0, n - 1);
    TracksAppend(prev, seg, world, convoyId);
  }

  /** The commands of one leg: its creation, tracked right after when it succeeds. */
  lemma LegCommandsPaired(run: Run, world: World, convoyId: String, draw0: nat, i: nat)
    requires i < |run.f.legs|
    ensures TracksFollowCreates(LegCommands(run, world, convoyId, draw0, i), world, convoyId)
  {
    var c := LegCreateAt(run, world, draw0, i);
    var seg := LegCommands(run, world, convoyId, draw0, i);
    if world.succeeds(c) {
      assert seg == [c, Track(convoyId, c.id)];
    } else {
      assert seg == [c];
    }
  }

  /** Two logs that each keep creations and trackings paired keep them paired when joined. */
  lemma TracksAppend(prev: seq<Command>, seg: seq<Command>, world: World, convoyId: String)
    requires TracksFollowCreates(prev, world, convoyId) && TracksFollowCreates(seg, world, convoyId)
    ensures TracksFollowCreates(prev + seg, world, convoyId)
  {
    var log := prev + seg;
    forall j | 0 <= j < |log|
      ensures log[j].Create? || log[j].Track?
      ensures log[j].Track? ==>
        0 < j && log[j - 1].Create? && world.succeeds(log[j - 1]) && log[j] == Track(convoyId, log[j - 1].id)
      ensures log[j].Create? && world.succeeds(log[j]) ==> j + 1 < |log| && log[j + 1] == Track(convoyId, log[j].id)
    {
      if j < |prev| {
        assert log[j] == prev[j];
        if j + 1 < |prev| {
          assert log[j + 1] == prev[j + 1];
        }
        if 0 < j {
          assert log[j - 1] == prev[j - 1];
        }
      } else {
        assert log[j] == seg[j - |prev|];
        if j + 1 < |log| {
          assert log[j + 1] == seg[j + 1 - |prev|];
        }
        if |prev| < j {
          assert log[j - 1] == seg[j - 1 - |prev|];
        }
      }
    }
  }

  /**
   * In a log of dispatch commands, every command slings or comments, every
   * comment follows a failed sling of the same bead, and every failed sling is
   * followed by exactly that comment.
   */
  ghost predicate CommentsFollowFailedSlings(log: seq<Command>, world: World) {
    && (forall j :: 0 <= j < |log| ==> log[j].Sling? || log[j].Comment?)
    && (forall j :: 0 <= j < |log| && log[j].Comment? ==>
          0 < j && log[j - 1].Sling? && !world.succeeds(log[j - 1]) && log[j] == Comment(log[j - 1].bead))
    && (forall j :: 0 <= j < |log| && log[j].Sling? && !world.succeeds(log[j]) ==>
          j + 1 < |log| && log[j + 1] == Comment(log[j].bead))
  }

  /** Each failed sling adds exactly one comment, on the bead it tried to sling. */
  lemma {:induction false} FailedSlingsCommented(run: Run, world: World, legBeads: map<String, String>, n: nat)
    requires n <= |run.f.legs|
    ensures CommentsFollowFailedSlings(DispatchLog(run, world, legBeads, n), world)
  {
    if n > 0 {
      FailedSlingsCommented(run, world, legBeads, n - 1);
      DispatchLogStep(run, world, legBeads, n);
    }
  }

  /** One more leg keeps every failed sling followed by its comment. */
  lemma DispatchLogStep(run: Run, world: World, legBeads: map<String, String>, n: nat)
    requires 0 < n <= |run.f.legs|
    requires CommentsFollowFailedSlings(DispatchLog(run, world, legBeads, n - 1), world)
    ensures CommentsFollowFailedSlings(DispatchLog(run, world, legBeads, n), world)
  {
    var prev := DispatchLog(run, world, legBeads, n - 1);
    var leg := run.f.legs[n - 1];
    if leg.id in legBeads {
      var sl := SlingOf(run, leg, legBeads[leg.id]);
      var seg := if world.succeeds(sl) then [sl] else [sl, Comment(legBeads[leg.id])];
      assert DispatchLog(run, world, legBeads, n) == prev + seg;
      assert CommentsFollowFailedSlings(seg, world);
      CommentsAppend(prev, seg, world);
    }
  }

  /** Two logs that each follow every failed sling by its comment still do when joined. */
  lemma CommentsAppend(prev: seq<Command>, seg: seq<Command>, world: World)
    requires CommentsFollowFailedSlings(prev, world) && CommentsFollowFailedSlings(seg, world)
    ensures CommentsFollowFailedSlings(prev + seg, world)
  {
    var log := prev + seg;
    forall j | 0 <= j < |log|
      ensures log[j].Sling? || log[j].Comment?
      ensures log[j].Comment? ==>
        0 < j && log[j - 1].Sling? && !world.succeeds(log[j - 1]) && log[j] == Comment(log[j - 1].bead)
      ensures log[j].Sling? && !world.succeeds(log[j]) ==> j + 1 < |log| && log[j + 1] == Comment(log[j].bead)
    {
      if j < |prev| {
        assert log[j] == prev[j];
        if j + 1 < |prev| {
          assert log[j + 1] == prev[j + 1];
        }
        if 0 < j {
          assert log[j - 1] == prev[j - 1];
        }
      } else {
        assert log[j] == seg[j - |prev|];
        if j + 1 < |log| {
          assert log[j + 1] == seg[j + 1 - |prev|];
        }
        if |prev| < j {
          assert log[j - 1] == seg[j - 1 - |prev|];
        }
      }
    }
  }

  /** The number of slings in a log that succeeded. */
  function SucceededSlings(log: seq<Command>, world: World): nat {
    if log == [] then 0
    else SucceededSlings(log[..|log| - 1], world) + (if log[|log| - 1].Sling? && world.succeeds(log[|log| - 1]) then 1 else 0)
  }

  /** The count the executor reports is the number of slings that succeeded. */
  lemma {:induction false} SlingCountCountsSuccesses(run: Run, world: World, legBeads: map<String, String>, n: nat)
    requires n <= |run.f.legs|
    ensures SlingCount(run, world, legBeads, n) == SucceededSlings(DispatchLog(run, world, legBeads, n), world)
  {
    if n > 0 {
      SlingCountCountsSuccesses(run, world, legBeads, n - 1);
      SlingCountStep(run, world, legBeads, n);
    }
  }

  /** One more leg adds to the count exactly the successful sling it appends to the log. */
  lemma SlingCountStep(run: Run, world: World, legBeads: map<String, String>, n: nat)
    requires 0 < n <= |run.f.legs|
    ensures SlingCount(run, world, legBeads, n) - SlingCount(run, world, legBeads, n - 1)
         == SucceededSlings(DispatchLog(run, world, legBeads, n), world) - SucceededSlings(DispatchLog(run, world, legBeads, n - 1), world)
  {
    var prev := DispatchLog(run, world, legBeads, n - 1);
    var leg := run.f.legs[n - 1];
    if leg.id in legBeads {
      var s := SlingOf(run, leg, legBeads[leg.id]);
      SucceededSlingsPush(prev, s, world);
      if !world.succeeds(s) {
        var c := Comment(legBeads[leg.id]);
        assert prev + [s, c] == (prev + [s]) + [c];
        SucceededSlingsPush(prev + [s], c, world);
      }
    }
  }

  /** Appending one command adds one to the count exactly when it is a sling that succeeds. */
  lemma SucceededSlingsPush(log: seq<Command>, c: Command, world: World)
    ensures SucceededSlings(log + [c], world) == SucceededSlings(log, world) + (if c.Sling? && world.succeeds(c) then 1 else 0)
  {
    assert (log + [c])[..|log|] == log;
  }

  /** Only stored legs are slung, each with its own description and title and the bead stored for its ID. */
  lemma {:induction false} SlungLegsAreStored(run: Run, world: World, legBeads: map<String, String>, n: nat, p: nat)
    requires n <= |run.f.legs|
    requires p < |DispatchLog(run, world, legBeads, n)| && DispatchLog(run, world, legBeads, n)[p].Sling?
    ensures exists j :: (0 <= j < n && run.f.legs[j].id in legBeads
                         && DispatchLog(run, world, legBeads, n)[p] == SlingOf(run, run.f.legs[j], legBeads[run.f.legs[j].id]))
  {
    var prev := DispatchLog(run, world, legBeads, n - 1);
    var log := DispatchLog(run, world, legBeads, n);
    assert log[..|prev|] == prev;
    if p < |prev| {
      assert log[p] == prev[p];
      SlungLegsAreStored(run, world, legBeads, n - 1, p);
    } else {
      assert log[p] == SlingOf(run, run.f.legs[n - 1], legBeads[run.f.legs[n - 1].id]);
    }
  }

  /** Every stored leg is slung. */
  lemma {:induction false} StoredLegsAreSlung(run: Run, world: World, legBeads: map<String, String>, n: nat, j: nat)
    requires j < n <= |run.f.legs|
    requires run.f.legs[j].id in legBeads
    ensures SlingOf(run, run.f.legs[j], legBeads[run.f.legs[j].id]) in DispatchLog(run, world, legBeads, n)
  {
    var prev := DispatchLog(run, world, legBeads, n - 1);
    assert DispatchLog(run, world, legBeads, n)[..|prev|] == prev;
    if j < n - 1 {
      StoredLegsAreSlung(run, world, legBeads, n - 1, j);
      var i :| 0 <= i < |prev| && prev[i] == SlingOf(run, run.f.legs[j], legBeads[run.f.legs[j].id]);
      assert DispatchLog(run, world, legBeads, n)[i] == prev[i];
    } else {
      assert DispatchLog(run, world, legBeads, n)[|prev|] == SlingOf(run, run.f.legs[j], legBeads[run.f.legs[j].id]);
    }
  }

  /** A sling never carries the base prompt: when the formula has one, the slung text differs from the leg bead's description. */
  lemma DispatchOmitsPrompt(run: Run, leg: Leg, bead: String)
    requires BasePromptKey in run.f.prompts
    ensures SlingOf(run, leg, bead).args == leg.description
    ensures SlingOf(run, leg, bead).args != LegCreate(run, leg, bead).description
  {
  }
}
