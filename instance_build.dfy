/** Building and normalising a deployment's instances: the `|`-separated
    `CSCI-ID` list (`buildInstancesFromCSCI`, which the deployment handler
    repeats inline), the per-instance address normalisation of the
    deployment handler, and allocation id generation (`newID`). */
module InstanceBuild {
  import opened Text
  import opened CenterTypes

  /** The `|` separating instance ids in a `CSCI-ID`. */
  const SEP: char := '|'

  /** The instance a CSCI piece denotes: addressed through the client's
      same-origin path `/<id>`. */
  function InstanceFor(id: string): Instance
  {
    Instance(id, "/" + id)
  }

  /** The trimmed pieces that are not blank, in order (what the builder loop
      keeps). */
  function NonBlankPieces(parts: seq<string>): (ids: seq<string>)
    ensures |ids| <= |parts|
    ensures forall k :: 0 <= k < |ids| ==> ids[k] != ""
  {
    if |parts| == 0 then []
    else
      var ids := NonBlankPieces(parts[..|parts| - 1]);
      var id := Trim(parts[|parts| - 1], GoSpace);
      if id == "" then ids else ids + [id]
  }

  /** Every kept piece is its own trim. */
  lemma {:induction false} NonBlankPiecesTrimmed(parts: seq<string>)
    ensures forall k :: 0 <= k < |NonBlankPieces(parts)| ==>
              Trim(NonBlankPieces(parts)[k], GoSpace) == NonBlankPieces(parts)[k]
  {
    if |parts| > 0 {
      var init := parts[..|parts| - 1];
      NonBlankPiecesTrimmed(init);
      TrimIdempotent(parts[|parts| - 1], GoSpace);
    }
  }

  /** Pieces free of `|` stay free of it after trimming. */
  lemma {:induction false} NonBlankPiecesSepFree(parts: seq<string>)
    requires forall k :: 0 <= k < |parts| ==> SEP !in parts[k]
    ensures forall k :: 0 <= k < |NonBlankPieces(parts)| ==> SEP !in NonBlankPieces(parts)[k]
  {
    if |parts| > 0 {
      var init := parts[..|parts| - 1];
      assert forall k :: 0 <= k < |init| ==> init[k] == parts[k];
      NonBlankPiecesSepFree(init);
      TrimKeepsAbsent(parts[|parts| - 1], GoSpace, SEP);
    }
  }

  /** The instance ids a `CSCI-ID` lists: the trimmed list split on `|`,
      each piece trimmed, blank pieces skipped. */
  function CsciIds(csci: string): seq<string>
  {
    NonBlankPieces(Split(Trim(csci, GoSpace), SEP))
  }

  function InstancesFor(ids: seq<string>): (insts: seq<Instance>)
    ensures |insts| == |ids|
    ensures forall k :: 0 <= k < |ids| ==> insts[k] == InstanceFor(ids[k])
  {
    seq(|ids|, k requires 0 <= k < |ids| => InstanceFor(ids[k]))
  }

  /** `buildInstancesFromCSCI(csci, siteName, gas)`. `buildInstances` is
      not part of this model and is passed in as a function. */
  method BuildInstancesFromCsci(csci: string, siteName: string, gas: int,
                                buildInstances: (string, int) -> seq<Instance>)
    returns (out: seq<Instance>)
    ensures CsciIds(csci) != [] ==> out == InstancesFor(CsciIds(csci))
    ensures CsciIds(csci) == [] ==> out == buildInstances(siteName, gas)
    ensures out == BuiltInstances(csci, siteName, gas, buildInstances)
  {
    var c := Trim(csci, GoSpace);
    if c != "" {
      out := InstancesOfPieces(Split(c, SEP));
      if |out| > 0 {
        return out;
      }
    } else {
      BlankCsciHasNoIds(csci);
    }
    out := buildInstances(siteName, gas);
  }

  /** The loop over the split pieces: trim each, skip the blank ones. */
  method InstancesOfPieces(parts: seq<string>) returns (out: seq<Instance>)
    ensures out == InstancesFor(NonBlankPieces(parts))
  {
    out := [];
    for i := 0 to |parts|
      invariant out == InstancesFor(NonBlankPieces(parts[..i]))
    {
      var id := Trim(parts[i], GoSpace);
      ghost var before := NonBlankPieces(parts[..i]);
      assert parts[..i + 1][..i] == parts[..i];
      assert parts[..i + 1][i] == parts[i];
      if id == "" {
        assert NonBlankPieces(parts[..i + 1]) == before;
        continue;
      }
      assert NonBlankPieces(parts[..i + 1]) == before + [id];
      InstancesForAppend(before, id);
      out := out + [InstanceFor(id)];
    }
    assert parts[..|parts|] == parts;
  }

  /** A `CSCI-ID` that trims to nothing lists no instance. */
  lemma BlankCsciHasNoIds(csci: string)
    requires Trim(csci, GoSpace) == ""
    ensures CsciIds(csci) == []
  {
    assert Split("", SEP) == [""];
    assert NonBlankPieces([""]) == NonBlankPieces([""][..0]);
  }

  lemma InstancesForAppend(ids: seq<string>, id: string)
    ensures InstancesFor(ids + [id]) == InstancesFor(ids) + [InstanceFor(id)]
  {
    assert forall k :: 0 <= k < |ids| ==> (ids + [id])[k] == ids[k];
  }

  /** Every instance built from a `CSCI-ID` has a non-empty, trimmed id free
      of `|`, and the address `"/" + id`. */
  lemma CsciInstancesWellFormed(csci: string)
    ensures forall inst :: inst in InstancesFor(CsciIds(csci)) ==>
              inst.instanceId != "" && Trim(inst.instanceId, GoSpace) == inst.instanceId
              && SEP !in inst.instanceId && inst.addr == "/" + inst.instanceId
  {
    NonBlankPiecesSepFree(Split(Trim(csci, GoSpace), SEP));
    NonBlankPiecesTrimmed(Split(Trim(csci, GoSpace), SEP));
  }

  /** Join of the pieces ends with the last piece. */
  lemma {:induction false} JoinEnds(parts: seq<string>, sep: char)
    requires |parts| >= 1
    ensures EndsWith(Join(parts, sep), parts[|parts| - 1])
  {
    if |parts| > 1 {
      JoinEnds(parts[1..], sep);
    }
  }

  /** A list of clean ids (non-empty, no white space at either end, no `|`)
      joined with `|` is read back as exactly that list. */
  lemma CsciRoundTrip(ids: seq<string>)
    requires |ids| >= 1
    requires forall k :: 0 <= k < |ids| ==>
               ids[k] != "" && SEP !in ids[k] && !GoSpace(ids[k][0]) && !GoSpace(ids[k][|ids[k]| - 1])
    ensures CsciIds(Join(ids, SEP)) == ids
  {
    var s := Join(ids, SEP);
    JoinEnds(ids, SEP);
    assert s[0] == ids[0][0];
    assert s[|s| - 1] == ids[|ids| - 1][|ids[|ids| - 1]| - 1];
    TrimOfTrimmed(s, GoSpace);
    SplitJoin(ids, SEP);
    CleanPiecesKept(ids);
  }

  lemma {:induction false} CleanPiecesKept(ids: seq<string>)
    requires forall k :: 0 <= k < |ids| ==>
               ids[k] != "" && !GoSpace(ids[k][0]) && !GoSpace(ids[k][|ids[k]| - 1])
    ensures NonBlankPieces(ids) == ids
  {
    if |ids| > 0 {
      var init, last := ids[..|ids| - 1], ids[|ids| - 1];
      assert forall k :: 0 <= k < |init| ==> init[k] == ids[k];
      CleanPiecesKept(init);
      TrimOfTrimmed(last, GoSpace);
      assert NonBlankPieces(ids) == NonBlankPieces(init) + [last];
      assert init + [last] == ids;
    }
  }

  /** The normalisation applied to each instance at registration: a
      non-blank id is trimmed and the address rewritten to `"/" + id`; an
      instance with a blank id is left as it was. */
  function NormalizeInstance(inst: Instance): Instance
  {
    var id := Trim(inst.instanceId, GoSpace);
    if id == "" then inst else InstanceFor(id)
  }

  /** What normalisation promises: a blank id is untouched; otherwise the
      id is the trimmed id, its own trim, and the address is `"/" + id`. */
  lemma NormalizeInstanceSpec(inst: Instance)
    ensures Blank(inst.instanceId, GoSpace) ==> NormalizeInstance(inst) == inst
    ensures !Blank(inst.instanceId, GoSpace) ==>
              var n := NormalizeInstance(inst);
              n.instanceId == Trim(inst.instanceId, GoSpace) && n.instanceId != ""
              && Trim(n.instanceId, GoSpace) == n.instanceId && n.addr == "/" + n.instanceId
  {
    TrimEmptyIffBlank(inst.instanceId, GoSpace);
    TrimIdempotent(inst.instanceId, GoSpace);
  }

  /** Normalising twice is normalising once. */
  lemma NormalizeIdempotent(inst: Instance)
    ensures NormalizeInstance(NormalizeInstance(inst)) == NormalizeInstance(inst)
  {
    TrimIdempotent(inst.instanceId, GoSpace);
  }

  /** Instances built from a `CSCI-ID` are already normal. */
  lemma NormalizeBuilt(ids: seq<string>, k: nat)
    requires k < |ids|
    requires ids[k] != "" && Trim(ids[k], GoSpace) == ids[k]
    ensures NormalizeInstance(InstancesFor(ids)[k]) == InstancesFor(ids)[k]
  {
  }

  /** Instances built from clean ids are left as they are by the
      normalisation loop. */
  lemma NormalizeAllBuilt(ids: seq<string>)
    requires forall k :: 0 <= k < |ids| ==> ids[k] != "" && Trim(ids[k], GoSpace) == ids[k]
    ensures NormalizeAll(InstancesFor(ids)) == InstancesFor(ids)
  {
    forall k | 0 <= k < |ids|
      ensures NormalizeAll(InstancesFor(ids))[k] == InstancesFor(ids)[k]
    {
      NormalizeBuilt(ids, k);
    }
  }

  /** Instances built from any `CSCI-ID` are already normal. */
  lemma NormalizeAllCsci(csci: string)
    ensures NormalizeAll(InstancesFor(CsciIds(csci))) == InstancesFor(CsciIds(csci))
  {
    NonBlankPiecesTrimmed(Split(Trim(csci, GoSpace), SEP));
    NormalizeAllBuilt(CsciIds(csci));
  }

  /** Every instance normalised. */
  function NormalizeAll(insts: seq<Instance>): (r: seq<Instance>)
    ensures |r| == |insts|
  {
    seq(|insts|, k requires 0 <= k < |insts| => NormalizeInstance(insts[k]))
  }

  /** The in-place normalisation loop over `d.Instances`: each instance is
      replaced by its normal form, in place and in order. */
  method NormalizeInstances(insts: seq<Instance>) returns (out: seq<Instance>)
    ensures out == NormalizeAll(insts)
  {
    ghost var target := NormalizeAll(insts);
    out := insts;
    for i := 0 to |out|
      invariant |out| == |insts|
      invariant forall k :: 0 <= k < i ==> out[k] == target[k]
      invariant forall k :: i <= k < |out| ==> out[k] == insts[k]
    {
      var id := Trim(out[i].instanceId, GoSpace);
      assert target[i] == NormalizeInstance(insts[i]);
      if id == "" {
        continue;
      }
      out := out[i := out[i].(instanceId := id)];
      out := out[i := out[i].(addr := "/" + id)];
    }
  }

  /** The instances a deployment registered without any gets: those its
      `CSCI-ID` lists, or the fallback when it lists none. */
  function BuiltInstances(csci: string, siteName: string, gas: int,
                          buildInstances: (string, int) -> seq<Instance>): seq<Instance>
  {
    if CsciIds(csci) != [] then InstancesFor(CsciIds(csci)) else buildInstances(siteName, gas)
  }

  /** `newID(prefix)`: the prefix, `_`, and 16 hex digits of 8 random bytes
      (the bytes come from the caller: randomness is not modelled). */
  function NewId(prefix: string, random: seq<Byte>): (id: string)
    requires |random| == 8
    ensures |id| == |prefix| + 17
    ensures StartsWith(id, prefix + "_")
  {
    prefix + "_" + HexEncode(random)
  }

  /** Different random bytes give different ids. */
  lemma NewIdInjective(prefix: string, r1: seq<Byte>, r2: seq<Byte>)
    requires |r1| == 8 && |r2| == 8
    requires NewId(prefix, r1) == NewId(prefix, r2)
    ensures r1 == r2
  {
    var n := |prefix| + 1;
    assert NewId(prefix, r1)[n..] == HexEncode(r1);
    assert NewId(prefix, r2)[n..] == HexEncode(r2);
    HexRoundTrip(r1);
    HexRoundTrip(r2);
  }
}
