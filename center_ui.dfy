/** The center's deployment page (`ui.js`): the deployment the
    registration form is filled with. */
module CenterUi {
  import opened Text
  import opened CenterTypes
  import opened InstanceBuild
  import Ledger

  /** `defaultDeployment()`. */
  function DefaultDeployment(): Deployment
  {
    Deployment("site2", "LLM1", 2, 4, "site2-a|site2-b",
               [Instance("site2-a", "/site2-a"), Instance("site2-b", "/site2-b")])
  }

  /** The default deployment is consistent: its instances are exactly those
      its `CSCI-ID` lists, each addressed as `"/" + id`, one per unit of
      `Gas`. */
  lemma DefaultDeploymentConsistent(d: Deployment)
    requires d == DefaultDeployment()
    ensures d.instances == InstancesFor(CsciIds(d.csciId))
    ensures |d.instances| == d.gas
    ensures forall k :: 0 <= k < |d.instances| ==> d.instances[k].addr == "/" + d.instances[k].instanceId
  {
    DefaultIds(d);
    DefaultInstances(d);
  }

  lemma DefaultIds(d: Deployment)
    requires d == DefaultDeployment()
    ensures CsciIds(d.csciId) == ["site2-a", "site2-b"]
  {
    var a, b := "site2-a", "site2-b";
    TwoIds(a, b);
    DefaultCsciPieces(d.csciId);
  }

  /** The default `CSCI-ID` is the two instance ids joined by `|`. */
  lemma DefaultCsciPieces(s: string)
    requires s == "site2-a|site2-b"
    ensures s == "site2-a" + "|" + "site2-b"
  {
    assert s[..7] == "site2-a";
    assert s[8..] == "site2-b";
    assert s == s[..7] + [s[7]] + s[8..];
  }

  /** Registering the default deployment stores it unchanged, whatever the
      instance fallback. */
  lemma DefaultDeploymentPrepared(d: Deployment, buildInstances: (string, int) -> seq<Instance>)
    requires d == DefaultDeployment()
    ensures Ledger.Prepared(d, buildInstances) == d
  {
    DefaultNormal(d);
    PreparedNormal(d, buildInstances);
  }

  lemma DefaultNormal(d: Deployment)
    requires d == DefaultDeployment()
    ensures NormalizeAll(d.instances) == d.instances
  {
    DefaultDeploymentConsistent(d);
    NormalizeAllCsci(d.csciId);
  }

  /** A deployment that comes with normal instances is stored as it is. */
  lemma PreparedNormal(d: Deployment, buildInstances: (string, int) -> seq<Instance>)
    requires |d.instances| > 0 && NormalizeAll(d.instances) == d.instances
    ensures Ledger.Prepared(d, buildInstances) == d
  {
  }

  lemma DefaultInstances(d: Deployment)
    requires d == DefaultDeployment()
    ensures InstancesFor(["site2-a", "site2-b"]) == d.instances
  {
    var a, b := "site2-a", "site2-b";
    var built := InstancesFor([a, b]);
    assert "/" + a == "/site2-a";
    assert "/" + b == "/site2-b";
    assert built[0] == Instance("site2-a", "/site2-a");
    assert built[1] == Instance("site2-b", "/site2-b");
    assert built == [built[0], built[1]];
  }

  /** Two clean ids joined by `|` list exactly those two. */
  lemma TwoIds(a: string, b: string)
    requires a == "site2-a" && b == "site2-b"
    ensures CsciIds(a + "|" + b) == [a, b]
  {
    Clean(a);
    Clean(b);
    var ids := [a, b];
    assert Join(ids, SEP) == a + "|" + b by {
      assert ids[1..] == [b];
    }
    CsciRoundTrip(ids);
  }

  lemma Clean(id: string)
    requires id == "site2-a" || id == "site2-b"
    ensures id != "" && SEP !in id && !GoSpace(id[0]) && !GoSpace(id[|id| - 1])
    ensures Trim(id, GoSpace) == id
  {
    assert id[0] == 's' && id[|id| - 1] in {'a', 'b'};
    assert forall i :: 0 <= i < |id| ==> id[i] != SEP;
    TrimOfTrimmed(id, GoSpace);
  }
}
