/** The coordinator's store: the service table, the deployment table with
    their free slots (Gas), the allocation table and the last measured delay
    of every instance, and the operations on them — candidates, allocation
    and release of a slot, and the table updates of the HTTP handlers. */
module Ledger {
  import opened Results
  import opened Text
  import opened CenterTypes
  import opened InstanceBuild
  import opened Ranking

  const MISSING_SERVICE_ID := "missing ServiceID"
  const NO_CANDIDATES := "no available candidates (Gas exhausted or no deployment)"
  const NOT_FOUND := "allocation not found"
  const MISSING_ALLOCATION_ID := "missing allocationId"
  const MISSING_SITE_OR_SERVICE := "missing SiteName or ServiceID"
  const NEGATIVE_GAS_OR_COST := "Gas/Cost must be >=0"
  const NEED_SITE_AND_SERVICE := "need /api/deployments/{SiteName}/{ServiceID}"
  const SERVICES_PATH := "/api/services/"
  const DEPLOYMENTS_PATH := "/api/deployments/"

  // ---------------------------------------------------------------------
  // The deployment table

  /** One entry of the deployment table: filed under its own site and
      service, with non-negative `Gas`, `Cost` and free slots. */
  predicate StateOk(site: string, svc: string, st: DeploymentState)
  {
    st.deployment.siteName == site && st.deployment.serviceId == svc
    && st.deployment.gas >= 0 && st.deployment.cost >= 0 && st.gasAvailable >= 0
  }

  /** What every handler keeps: each entry is well filed and no site is left
      with an empty service map. */
  predicate WellFormed(deps: Deployments)
  {
    forall site :: site in deps ==>
      |deps[site]| > 0 && forall svc :: svc in deps[site] ==> StateOk(site, svc, deps[site][svc])
  }

  /** Whether the table has a deployment of `svc` at `site`. */
  predicate Has(deps: Deployments, site: string, svc: string)
  {
    site in deps && svc in deps[site]
  }

  /** The sites that deploy `svc`. */
  function SitesOffering(deps: Deployments, svc: string): set<string>
  {
    set site | site in deps && svc in deps[site]
  }

  /** The candidate entry for a deployment. */
  function CandidateOf(site: string, svc: string, st: DeploymentState): Candidate
  {
    var d := st.deployment;
    Candidate(site, svc, d.gas, d.cost, d.csciId, d.instances)
  }

  /** Free slots after taking one: one fewer, but never below 0. */
  function Take(g: int): int
  {
    if g - 1 < 0 then 0 else g - 1
  }

  /** Free slots after giving one back: one more, but never above `gas`. */
  function Give(g: int, gas: int): int
  {
    if g + 1 > gas then gas else g + 1
  }

  /** The table after `Allocate` takes a slot of `svc` at `site`. */
  function TakeSlot(deps: Deployments, site: string, svc: string): Deployments
    requires Has(deps, site, svc)
  {
    var st := deps[site][svc];
    deps[site := deps[site][svc := st.(gasAvailable := Take(st.gasAvailable))]]
  }

  /** The table after `Release` of the allocation `rec`: the slot goes back
      if the deployment is still there. */
  function ReturnSlot(deps: Deployments, rec: AllocationRecord): Deployments
  {
    if Has(deps, rec.siteName, rec.serviceId) then
      var st := deps[rec.siteName][rec.serviceId];
      deps[rec.siteName := deps[rec.siteName][rec.serviceId := st.(gasAvailable := Give(st.gasAvailable, st.deployment.gas))]]
    else deps
  }

  /** Taking a slot changes the free slots of that one deployment and
      nothing else; a deployment with a free slot loses exactly one. */
  lemma TakeSlotSpec(deps: Deployments, site: string, svc: string)
    requires Has(deps, site, svc)
    ensures var r := TakeSlot(deps, site, svc);
      && r.Keys == deps.Keys
      && (forall s :: s in deps ==> r[s].Keys == deps[s].Keys)
      && (forall s, v :: Has(deps, s, v) && (s != site || v != svc) ==> r[s][v] == deps[s][v])
      && r[site][svc].deployment == deps[site][svc].deployment
      && r[site][svc].gasAvailable >= 0
      && (deps[site][svc].gasAvailable > 0 ==> r[site][svc].gasAvailable == deps[site][svc].gasAvailable - 1)
  {
  }

  /** Returning a slot raises the free slots of that one deployment by one,
      never above its `Gas`, and changes nothing else; with the deployment
      gone the table is unchanged. */
  lemma ReturnSlotSpec(deps: Deployments, rec: AllocationRecord)
    ensures !Has(deps, rec.siteName, rec.serviceId) ==> ReturnSlot(deps, rec) == deps
    ensures Has(deps, rec.siteName, rec.serviceId) ==>
      var r := ReturnSlot(deps, rec);
      var g := deps[rec.siteName][rec.serviceId].gasAvailable;
      var gas := deps[rec.siteName][rec.serviceId].deployment.gas;
      && r.Keys == deps.Keys
      && (forall s :: s in deps ==> r[s].Keys == deps[s].Keys)
      && (forall s, v :: Has(deps, s, v) && (s != rec.siteName || v != rec.serviceId) ==> r[s][v] == deps[s][v])
      && r[rec.siteName][rec.serviceId].deployment == deps[rec.siteName][rec.serviceId].deployment
      && r[rec.siteName][rec.serviceId].gasAvailable <= gas
      && (g < gas ==> r[rec.siteName][rec.serviceId].gasAvailable == g + 1)
  {
  }

  /** Releasing what was just allocated restores the table, when the
      deployment had no more free slots than its `Gas`. */
  lemma TakeThenReturn(deps: Deployments, site: string, svc: string, instanceId: string)
    requires Has(deps, site, svc)
    requires 0 < deps[site][svc].gasAvailable <= deps[site][svc].deployment.gas
    ensures ReturnSlot(TakeSlot(deps, site, svc), AllocationRecord(svc, site, instanceId)) == deps
  {
    var st := deps[site][svc];
    var taken := st.(gasAvailable := st.gasAvailable - 1);
    var t := TakeSlot(deps, site, svc);
    assert t == deps[site := deps[site][svc := taken]];
    assert Has(t, site, svc) && t[site][svc] == taken;
    assert taken.(gasAvailable := Give(taken.gasAvailable, taken.deployment.gas)) == st;
    assert ReturnSlot(t, AllocationRecord(svc, site, instanceId)) == t[site := t[site][svc := st]];
    assert t[site][svc := st] == deps[site][svc := st] == deps[site];
    assert deps[site := deps[site]] == deps;
  }

  /** Filing a well-formed entry under a site whose other entries are well
      filed keeps the table well formed. */
  lemma UpdateWellFormed(deps: Deployments, site: string, bySvc: map<string, DeploymentState>,
                         svc: string, st: DeploymentState)
    requires WellFormed(deps) && StateOk(site, svc, st)
    requires forall v :: v in bySvc ==> StateOk(site, v, bySvc[v])
    ensures WellFormed(deps[site := bySvc[svc := st]])
  {
    var r := deps[site := bySvc[svc := st]];
    forall s | s in r
      ensures |r[s]| > 0 && forall v :: v in r[s] ==> StateOk(s, v, r[s][v])
    {
      if s == site {
        assert svc in r[s];
      }
    }
  }

  /** Taking a slot keeps the table well formed. */
  lemma TakeSlotWellFormed(deps: Deployments, site: string, svc: string)
    requires WellFormed(deps) && Has(deps, site, svc)
    ensures WellFormed(TakeSlot(deps, site, svc))
  {
    var st := deps[site][svc];
    UpdateWellFormed(deps, site, deps[site], svc, st.(gasAvailable := Take(st.gasAvailable)));
  }

  /** Returning a slot keeps the table well formed. */
  lemma ReturnSlotWellFormed(deps: Deployments, rec: AllocationRecord)
    requires WellFormed(deps)
    ensures WellFormed(ReturnSlot(deps, rec))
  {
    if Has(deps, rec.siteName, rec.serviceId) {
      var st := deps[rec.siteName][rec.serviceId];
      UpdateWellFormed(deps, rec.siteName, deps[rec.siteName], rec.serviceId,
                       st.(gasAvailable := Give(st.gasAvailable, st.deployment.gas)));
    }
  }

  /** Registration sets the free slots to the number of instances, which
      may exceed `Gas`; then an allocation followed by its release leaves the
      deployment with only `Gas` free slots: a slot is lost. */
  lemma TakeThenReturnCaps(deps: Deployments, site: string, svc: string, instanceId: string)
    requires Has(deps, site, svc)
    requires deps[site][svc].gasAvailable > deps[site][svc].deployment.gas >= 0
    ensures var r := ReturnSlot(TakeSlot(deps, site, svc), AllocationRecord(svc, site, instanceId));
      r[site][svc].gasAvailable == deps[site][svc].deployment.gas < deps[site][svc].gasAvailable
  {
  }

  /** The prepared deployment a registration stores: instances built from
      `CSCI-ID` (or the fallback) when none were given, then normalised. */
  function Prepared(d: Deployment, buildInstances: (string, int) -> seq<Instance>): Deployment
  {
    var insts := if |d.instances| == 0 then BuiltInstances(d.csciId, d.siteName, d.gas, buildInstances)
                 else d.instances;
    d.(instances := NormalizeAll(insts))
  }

  /** The table after registering the prepared deployment `d`: its entry is
      replaced, with as many free slots as instances. */
  function Register(deps: Deployments, d: Deployment): (r: Deployments)
    ensures Has(r, d.siteName, d.serviceId)
    ensures r[d.siteName][d.serviceId] == DeploymentState(d, |d.instances|)
  {
    var bySvc := if d.siteName in deps then deps[d.siteName] else map[];
    deps[d.siteName := bySvc[d.serviceId := DeploymentState(d, |d.instances|)]]
  }

  /** Registering a validated deployment keeps the table well formed. */
  lemma RegisterWellFormed(deps: Deployments, d: Deployment)
    requires WellFormed(deps) && d.gas >= 0 && d.cost >= 0
    ensures WellFormed(Register(deps, d))
  {
    var bySvc := if d.siteName in deps then deps[d.siteName] else map[];
    UpdateWellFormed(deps, d.siteName, bySvc, d.serviceId, DeploymentState(d, |d.instances|));
  }

  /** Registration touches no other entry. */
  lemma RegisterFrame(deps: Deployments, d: Deployment)
    ensures forall s, v :: (s != d.siteName || v != d.serviceId) ==>
              (Has(Register(deps, d), s, v) <==> Has(deps, s, v))
              && (Has(deps, s, v) ==> Register(deps, d)[s][v] == deps[s][v])
  {
  }

  /** The table after deleting the deployment of `svc` at `site`. */
  function DropDeployment(deps: Deployments, site: string, svc: string): Deployments
  {
    if site in deps then
      var bySvc := deps[site] - {svc};
      if |bySvc| == 0 then deps - {site} else deps[site := bySvc]
    else deps
  }

  /** Deleting a deployment removes exactly that entry, drops its site when
      nothing else is deployed there, and is a no-op when absent. */
  lemma DropDeploymentSpec(deps: Deployments, site: string, svc: string)
    ensures !Has(DropDeployment(deps, site, svc), site, svc)
    ensures forall s, v :: (s != site || v != svc) ==>
              (Has(DropDeployment(deps, site, svc), s, v) <==> Has(deps, s, v))
              && (Has(deps, s, v) ==> DropDeployment(deps, site, svc)[s][v] == deps[s][v])
    ensures !Has(deps, site, svc) && WellFormed(deps) ==> DropDeployment(deps, site, svc) == deps
    ensures WellFormed(deps) ==> WellFormed(DropDeployment(deps, site, svc))
  {
    DropDeploymentFrame(deps, site, svc);
    if WellFormed(deps) {
      DropDeploymentWellFormed(deps, site, svc);
      if !Has(deps, site, svc) {
        DropDeploymentAbsent(deps, site, svc);
      }
    }
  }

  lemma DropDeploymentFrame(deps: Deployments, site: string, svc: string)
    ensures !Has(DropDeployment(deps, site, svc), site, svc)
    ensures forall s, v :: (s != site || v != svc) ==>
              (Has(DropDeployment(deps, site, svc), s, v) <==> Has(deps, s, v))
              && (Has(deps, s, v) ==> DropDeployment(deps, site, svc)[s][v] == deps[s][v])
  {
  }

  lemma DropDeploymentAbsent(deps: Deployments, site: string, svc: string)
    requires !Has(deps, site, svc) && WellFormed(deps)
    ensures DropDeployment(deps, site, svc) == deps
  {
    if site in deps {
      assert deps[site] - {svc} == deps[site];
      assert deps[site := deps[site]] == deps;
    }
  }

  lemma DropDeploymentWellFormed(deps: Deployments, site: string, svc: string)
    requires WellFormed(deps)
    ensures WellFormed(DropDeployment(deps, site, svc))
  {
  }

  /** The sites processed so far by the cascading delete loop: each one has
      lost `svc` and is dropped if that emptied it. */
  function CascadeOn(deps: Deployments, svc: string, done: set<string>): Deployments
  {
    map site | site in deps && (site in done ==> !(deps[site].Keys <= {svc})) ::
      if site in done then deps[site] - {svc} else deps[site]
  }

  /** The table after deleting the service `svc`. */
  function CascadeDelete(deps: Deployments, svc: string): Deployments
  {
    CascadeOn(deps, svc, deps.Keys)
  }

  /** The cascading delete removes `svc` from every site, keeps every other
      service's deployments exactly, and leaves no empty site. */
  lemma CascadeDeleteSpec(deps: Deployments, svc: string)
    ensures forall s :: !Has(CascadeDelete(deps, svc), s, svc)
    ensures forall s, v :: v != svc ==>
              (Has(CascadeDelete(deps, svc), s, v) <==> Has(deps, s, v))
              && (Has(deps, s, v) ==> CascadeDelete(deps, svc)[s][v] == deps[s][v])
    ensures forall s :: s in CascadeDelete(deps, svc) ==> |CascadeDelete(deps, svc)[s]| > 0
    ensures WellFormed(deps) ==> WellFormed(CascadeDelete(deps, svc))
  {
    var r := CascadeDelete(deps, svc);
    forall s, v | v != svc && Has(deps, s, v)
      ensures Has(r, s, v)
    {
      assert v in deps[s] - {svc};
    }
  }

  // ---------------------------------------------------------------------
  // The c-ps view

  /** `minDelay` after the loop over the instances: starts at -1 and takes
      every recorded delay that is smaller, or any one while it is -1. */
  function MinFold(insts: seq<Instance>, ld: map<string, int>): int
  {
    if |insts| == 0 then -1
    else
      var m := MinFold(insts[..|insts| - 1], ld);
      var id := insts[|insts| - 1].instanceId;
      if id in ld && (m == -1 || ld[id] < m) then ld[id] else m
  }

  /** The row's `Networkdelay`: the fold, with -1 shown as 0. */
  function NetworkDelay(insts: seq<Instance>, ld: map<string, int>): int
  {
    var m := MinFold(insts, ld);
    if m < 0 then 0 else m
  }

  /** Some instance has a recorded delay. */
  predicate AnyRecorded(insts: seq<Instance>, ld: map<string, int>)
  {
    exists i :: 0 <= i < |insts| && insts[i].instanceId in ld
  }

  /** With non-negative recorded delays the fold is -1 when nothing is
      recorded and otherwise the least recorded delay. */
  lemma {:induction false} MinFoldSpec(insts: seq<Instance>, ld: map<string, int>)
    requires forall i :: 0 <= i < |insts| && insts[i].instanceId in ld ==> ld[insts[i].instanceId] >= 0
    ensures !AnyRecorded(insts, ld) ==> MinFold(insts, ld) == -1
    ensures AnyRecorded(insts, ld) ==>
              exists i :: 0 <= i < |insts| && insts[i].instanceId in ld && MinFold(insts, ld) == ld[insts[i].instanceId]
    ensures forall i :: 0 <= i < |insts| && insts[i].instanceId in ld ==> MinFold(insts, ld) <= ld[insts[i].instanceId]
  {
    if |insts| > 0 {
      var init := insts[..|insts| - 1];
      assert forall i :: 0 <= i < |init| ==> init[i] == insts[i];
      MinFoldSpec(init, ld);
      var last := |insts| - 1;
      if AnyRecorded(init, ld) {
        var i :| 0 <= i < |init| && init[i].instanceId in ld && MinFold(init, ld) == ld[init[i].instanceId];
        assert insts[i].instanceId in ld;
      } else if insts[last].instanceId in ld {
        assert MinFold(insts, ld) == ld[insts[last].instanceId];
      }
    }
  }

  /** A view row's network delay is the least recorded delay of the
      deployment's instances, or 0 when none has one (for non-negative
      recorded delays). */
  lemma NetworkDelaySpec(insts: seq<Instance>, ld: map<string, int>)
    requires forall i :: 0 <= i < |insts| && insts[i].instanceId in ld ==> ld[insts[i].instanceId] >= 0
    ensures NetworkDelay(insts, ld) >= 0
    ensures !AnyRecorded(insts, ld) ==> NetworkDelay(insts, ld) == 0
    ensures AnyRecorded(insts, ld) ==>
              exists i :: 0 <= i < |insts| && insts[i].instanceId in ld && NetworkDelay(insts, ld) == ld[insts[i].instanceId]
    ensures forall i :: 0 <= i < |insts| && insts[i].instanceId in ld ==> NetworkDelay(insts, ld) <= ld[insts[i].instanceId]
  {
    MinFoldSpec(insts, ld);
  }

  /** A recorded delay of -1 is mistaken for "nothing recorded yet": with
      delays -1 then 5 the row shows 5, not the least delay. */
  lemma NegativeDelayOverwritten()
    ensures NetworkDelay([Instance("a", "/a"), Instance("b", "/b")], map["a" := -1, "b" := 5]) == 5
  {
    var insts := [Instance("a", "/a"), Instance("b", "/b")];
    var ld := map["a" := -1, "b" := 5];
    assert insts[..1] == [Instance("a", "/a")];
    assert insts[..1][..0] == [];
    assert MinFold(insts[..1], ld) == -1;
  }

  /** The loop of the view handler over one deployment's instances. */
  method MinRecordedDelay(insts: seq<Instance>, ld: map<string, int>) returns (minDelay: int)
    ensures minDelay == NetworkDelay(insts, ld)
  {
    minDelay := -1;
    for i := 0 to |insts|
      invariant minDelay == MinFold(insts[..i], ld)
    {
      assert insts[..i + 1][..i] == insts[..i];
      var id := insts[i].instanceId;
      if id in ld {
        var d := ld[id];
        if minDelay == -1 || d < minDelay {
          minDelay := d;
        }
      }
    }
    assert insts[..|insts|] == insts;
    if minDelay < 0 {
      minDelay := 0;
    }
  }

  /** One row of the view. */
  function RowFor(st: DeploymentState, services: map<string, Service>, ld: map<string, int>): CpsViewRow
  {
    var d := st.deployment;
    var comp := if d.serviceId in services then services[d.serviceId].computingTime else "";
    CpsViewRow(d.serviceId, d.csciId, d.gas, d.cost, comp, NetworkDelay(d.instances, ld))
  }

  /** The whole view, one row per deployment, filed like the table. */
  function ViewOf(deps: Deployments, services: map<string, Service>, ld: map<string, int>)
    : map<string, map<string, CpsViewRow>>
  {
    map site | site in deps :: SiteRows(deps[site], services, ld)
  }

  // ---------------------------------------------------------------------
  // Allocation

  /** Reading `k` as the index of the candidate sorted first, what a
      successful `Allocate` leaves: the slot taken, the record filed under
      the new id, and the response describing the chosen instance. */
  predicate Allocated(d0: Deployments, a0: map<string, AllocationRecord>, req: AllocateRequest,
                      random: seq<Byte>, k: nat, d1: Deployments, a1: map<string, AllocationRecord>,
                      res: Result<AllocateResponse, string>)
    requires |random| == 8
  {
    var cs := Eligible(d0, req.serviceId, req.measurements);
    IsBest(cs, k)
    && var c := cs[k];
    var id := NewId("alloc", random);
    d1 == TakeSlot(d0, c.m.siteName, req.serviceId)
    && a1 == a0[id := AllocationRecord(req.serviceId, c.m.siteName, c.m.instanceId)]
    && res == Ok(AllocateResponse(id, req.serviceId, c.m.instanceId, c.m.addr, c.csciId, c.cost,
                                  d1[c.m.siteName][req.serviceId].gasAvailable))
  }

  /** On success the chosen deployment loses exactly one slot, the response
      reports what is left, the chosen candidate has a least score, and the
      allocation table gains the new record. */
  lemma AllocatedSpec(d0: Deployments, a0: map<string, AllocationRecord>, req: AllocateRequest,
                      random: seq<Byte>, k: nat, d1: Deployments, a1: map<string, AllocationRecord>,
                      res: Result<AllocateResponse, string>)
    requires |random| == 8
    requires Allocated(d0, a0, req, random, k, d1, a1, res)
    ensures var c := Eligible(d0, req.serviceId, req.measurements)[k];
      && res.Ok? && res.value.instanceId == c.m.instanceId && res.value.addr == c.m.addr
      && c.m in req.measurements
      && d1[c.m.siteName][req.serviceId].gasAvailable == d0[c.m.siteName][req.serviceId].gasAvailable - 1
      && res.value.gasRemaining == d1[c.m.siteName][req.serviceId].gasAvailable >= 0
      && (forall s, v :: Has(d0, s, v) && (s != c.m.siteName || v != req.serviceId) ==> d1[s][v] == d0[s][v])
      && a1[res.value.allocationId] == AllocationRecord(req.serviceId, c.m.siteName, c.m.instanceId)
      && (res.value.allocationId !in a0 ==> |a1| == |a0| + 1)
  {
    var c := Eligible(d0, req.serviceId, req.measurements)[k];
    TakeSlotSpec(d0, c.m.siteName, req.serviceId);
  }

  /** Releasing the allocation just made removes its record again. */
  lemma AllocateThenReleaseRecord(a0: map<string, AllocationRecord>, id: string, rec: AllocationRecord)
    requires id !in a0
    ensures a0[id := rec] - {id} == a0
  {
  }

  // ---------------------------------------------------------------------
  // Loops over the tables

  /** The site names of a candidate list. */
  function SiteNames(cs: seq<Candidate>): set<string>
  {
    if |cs| == 0 then {} else SiteNames(cs[..|cs| - 1]) + {cs[|cs| - 1].siteName}
  }

  /** A site is named in the list exactly when some entry has it. */
  lemma {:induction false} SiteNamesSpec(cs: seq<Candidate>, site: string)
    ensures site in SiteNames(cs) <==> exists i :: 0 <= i < |cs| && cs[i].siteName == site
  {
    if |cs| > 0 {
      var init := cs[..|cs| - 1];
      SiteNamesSpec(init, site);
      if site in SiteNames(init) {
        var i :| 0 <= i < |init| && init[i].siteName == site;
        assert cs[i].siteName == site;
      }
      if exists i :: 0 <= i < |cs| && cs[i].siteName == site {
        var i :| 0 <= i < |cs| && cs[i].siteName == site;
        if i < |init| {
          assert init[i].siteName == site;
        }
      }
    }
  }

  /** The candidates loop invariant: `out` lists the offering sites already
      visited (those not in `left`), once each, copied from their
      deployments. */
  predicate CandidatesSoFar(deps: Deployments, svc: string, out: seq<Candidate>, left: set<string>)
  {
    && left <= deps.Keys
    && SiteNames(out) == SitesOffering(deps, svc) - left
    && (forall i, j :: 0 <= i < j < |out| ==> out[i].siteName != out[j].siteName)
    && (forall i :: 0 <= i < |out| ==> out[i].siteName !in left)
    && (forall i :: 0 <= i < |out| ==>
          Has(deps, out[i].siteName, svc) && out[i] == CandidateOf(out[i].siteName, svc, deps[out[i].siteName][svc]))
  }

  lemma CandidatesStep(deps: Deployments, svc: string, out: seq<Candidate>, left: set<string>, site: string)
    requires CandidatesSoFar(deps, svc, out, left) && site in left
    ensures var next := if svc in deps[site] then out + [CandidateOf(site, svc, deps[site][svc])] else out;
      CandidatesSoFar(deps, svc, next, left - {site})
  {
    if svc in deps[site] {
      var next := out + [CandidateOf(site, svc, deps[site][svc])];
      assert next[..|out|] == out;
    }
  }

  /** The candidates loop, visiting the sites in an unspecified order. */
  method CandidatesOf(deps: Deployments, svc: string) returns (out: seq<Candidate>)
    ensures SiteNames(out) == SitesOffering(deps, svc)
    ensures forall i, j :: 0 <= i < j < |out| ==> out[i].siteName != out[j].siteName
    ensures forall i :: 0 <= i < |out| ==>
              Has(deps, out[i].siteName, svc) && out[i] == CandidateOf(out[i].siteName, svc, deps[out[i].siteName][svc])
  {
    out := [];
    var left := deps.Keys;
    while left != {}
      invariant CandidatesSoFar(deps, svc, out, left)
      decreases |left|
    {
      var site :| site in left;
      CandidatesStep(deps, svc, out, left, site);
      var bySvc := deps[site];
      if svc in bySvc {
        out := out + [CandidateOf(site, svc, bySvc[svc])];
      }
      left := left - {site};
    }
  }

  /** One more site processed by the cascading delete. */
  lemma CascadeStep(deps: Deployments, svc: string, done: set<string>, site: string)
    requires done <= deps.Keys && site in deps && site !in done
    ensures var r := CascadeOn(deps, svc, done);
      site in r
      && var bySvc := r[site] - {svc};
      CascadeOn(deps, svc, done + {site}) == if |bySvc| == 0 then r - {site} else r[site := bySvc]
  {
    var r := CascadeOn(deps, svc, done);
    var r2 := CascadeOn(deps, svc, done + {site});
    var bySvc := deps[site] - {svc};
    assert bySvc.Keys == deps[site].Keys - {svc};
    assert |bySvc| == 0 <==> deps[site].Keys <= {svc} by {
      if |bySvc| != 0 {
        var x :| x in bySvc;
        assert x in deps[site].Keys && x != svc;
      } else {
        assert deps[site].Keys - {svc} == {};
      }
    }
    var want := if |bySvc| == 0 then r - {site} else r[site := bySvc];
    assert r2.Keys == want.Keys;
    forall x | x in r2 ensures r2[x] == want[x] {
      if x != site {
        assert r2[x] == r[x];
      }
    }
  }

  /** The cascading delete loop over the sites. */
  method CascadeLoop(deps: Deployments, svc: string) returns (r: Deployments)
    ensures r == CascadeDelete(deps, svc)
  {
    r := deps;
    var left := deps.Keys;
    assert r == CascadeOn(deps, svc, {});
    while left != {}
      invariant left <= deps.Keys
      invariant r == CascadeOn(deps, svc, deps.Keys - left)
      decreases |left|
    {
      var site :| site in left;
      CascadeStep(deps, svc, deps.Keys - left, site);
      var bySvc := r[site] - {svc};
      if |bySvc| == 0 {
        r := r - {site};
      } else {
        r := r[site := bySvc];
      }
      assert deps.Keys - (left - {site}) == (deps.Keys - left) + {site};
      left := left - {site};
    }
  }

  /** The rows of one site's deployments. */
  function SiteRows(bySvc: map<string, DeploymentState>, services: map<string, Service>, ld: map<string, int>)
    : map<string, CpsViewRow>
  {
    map svc | svc in bySvc :: RowFor(bySvc[svc], services, ld)
  }

  lemma SiteRowsStep(bySvc: map<string, DeploymentState>, services: map<string, Service>, ld: map<string, int>,
                     done: set<string>, svc: string)
    requires svc in bySvc
    ensures (map x | x in bySvc.Keys * (done + {svc}) :: RowFor(bySvc[x], services, ld))
            == (map x | x in bySvc.Keys * done :: RowFor(bySvc[x], services, ld))[svc := RowFor(bySvc[svc], services, ld)]
  {
  }

  lemma ViewStep(deps: Deployments, services: map<string, Service>, ld: map<string, int>,
                 done: set<string>, site: string)
    requires site in deps
    ensures (map x | x in deps.Keys * (done + {site}) :: SiteRows(deps[x], services, ld))
            == (map x | x in deps.Keys * done :: SiteRows(deps[x], services, ld))[site := SiteRows(deps[site], services, ld)]
  {
  }

  /** The inner view loop over one site's deployments. */
  method SiteRowsLoop(bySvc: map<string, DeploymentState>, services: map<string, Service>, ld: map<string, int>)
    returns (inner: map<string, CpsViewRow>)
    ensures inner == SiteRows(bySvc, services, ld)
  {
    inner := map[];
    var todo := bySvc.Keys;
    while todo != {}
      invariant todo <= bySvc.Keys
      invariant inner == map x | x in bySvc.Keys * (bySvc.Keys - todo) :: RowFor(bySvc[x], services, ld)
      decreases |todo|
    {
      var svc :| svc in todo;
      SiteRowsStep(bySvc, services, ld, bySvc.Keys - todo, svc);
      var st := bySvc[svc];
      var comp := "";
      if st.deployment.serviceId in services {
        comp := services[st.deployment.serviceId].computingTime;
      }
      var minDelay := MinRecordedDelay(st.deployment.instances, ld);
      inner := inner[svc := CpsViewRow(st.deployment.serviceId, st.deployment.csciId,
                                       st.deployment.gas, st.deployment.cost, comp, minDelay)];
      assert bySvc.Keys - (todo - {svc}) == (bySvc.Keys - todo) + {svc};
      todo := todo - {svc};
    }
    assert bySvc.Keys * (bySvc.Keys - todo) == bySvc.Keys;
  }

  /** The view loops over the table. */
  method ViewLoop(deps: Deployments, services: map<string, Service>, ld: map<string, int>)
    returns (rows: map<string, map<string, CpsViewRow>>)
    ensures rows == ViewOf(deps, services, ld)
  {
    rows := map[];
    var left := deps.Keys;
    while left != {}
      invariant left <= deps.Keys
      invariant rows == map x | x in deps.Keys * (deps.Keys - left) :: SiteRows(deps[x], services, ld)
      decreases |left|
    {
      var site :| site in left;
      ViewStep(deps, services, ld, deps.Keys - left, site);
      var inner := SiteRowsLoop(deps[site], services, ld);
      rows := rows[site := inner];
      assert deps.Keys - (left - {site}) == (deps.Keys - left) + {site};
      left := left - {site};
    }
    assert deps.Keys * (deps.Keys - left) == deps.Keys;
  }

  /** The slot update of `Store.Release`, through the stored pointer. */
  method ReturnSlotUpdate(deps: Deployments, rec: AllocationRecord) returns (r: Deployments)
    ensures r == ReturnSlot(deps, rec)
  {
    r := deps;
    if rec.siteName in r {
      var bySvc := r[rec.siteName];
      if rec.serviceId in bySvc {
        var st := bySvc[rec.serviceId];
        st := st.(gasAvailable := st.gasAvailable + 1);
        if st.gasAvailable > st.deployment.gas {
          st := st.(gasAvailable := st.deployment.gas);
        }
        r := r[rec.siteName := bySvc[rec.serviceId := st]];
      }
    }
  }

  /** The slot update of `Store.Allocate`. */
  method TakeSlotUpdate(deps: Deployments, site: string, svc: string) returns (r: Deployments, remaining: int)
    requires Has(deps, site, svc)
    ensures r == TakeSlot(deps, site, svc)
    ensures remaining == r[site][svc].gasAvailable
  {
    var st := deps[site][svc];
    st := st.(gasAvailable := st.gasAvailable - 1);
    if st.gasAvailable < 0 {
      st := st.(gasAvailable := 0);
    }
    r := deps[site := deps[site][svc := st]];
    remaining := st.gasAvailable;
  }

  /** What `Store.Allocate` promises, from the tables before (`d0`, `a0`,
      `ld0`) to the response and the tables after (`d1`, `a1`, `ld1`): an
      empty service id changes nothing; otherwise every eligible measurement
      has its delay recorded; with none eligible the slots and allocations
      stay as they were; otherwise a best candidate is allocated. */
  predicate AllocateSpec(d0: Deployments, a0: map<string, AllocationRecord>, ld0: map<string, int>,
                         req: AllocateRequest, random: seq<Byte>, res: Result<AllocateResponse, string>,
                         d1: Deployments, a1: map<string, AllocationRecord>, ld1: map<string, int>)
    requires |random| == 8
  {
    var cs := Eligible(d0, req.serviceId, req.measurements);
    && (req.serviceId == "" ==> res == Err(MISSING_SERVICE_ID) && d1 == d0 && a1 == a0 && ld1 == ld0)
    && (req.serviceId != "" ==> ld1 == RecordDelays(ld0, cs))
    && (req.serviceId != "" && cs == [] ==> res == Err(NO_CANDIDATES) && d1 == d0 && a1 == a0)
    && (req.serviceId != "" && cs != [] ==> exists k: nat :: k < |cs| && Allocated(d0, a0, req, random, k, d1, a1, res))
  }

  /** The body of `Store.Allocate` on the tables it reads and writes; `k`
      is the index of the chosen candidate. */
  method AllocateOn(deps: Deployments, allocs: map<string, AllocationRecord>, ld0: map<string, int>,
                    req: AllocateRequest, random: seq<Byte>)
    returns (res: Result<AllocateResponse, string>, d: Deployments, a: map<string, AllocationRecord>,
             ld: map<string, int>, k: nat)
    requires WellFormed(deps) && |random| == 8
    ensures WellFormed(d)
    ensures AllocateSpec(deps, allocs, ld0, req, random, res, d, a, ld)
  {
    d, a, ld, k := deps, allocs, ld0, 0;
    if req.serviceId == "" {
      return Err(MISSING_SERVICE_ID), d, a, ld, k;
    }
    var cands;
    cands, ld := Collect(deps, req.serviceId, req.measurements, ld0);
    if |cands| == 0 {
      return Err(NO_CANDIDATES), d, a, ld, k;
    }
    k := Rank(cands);
    var chosen := cands[k];
    var site := chosen.m.siteName;
    TakeSlotWellFormed(deps, site, req.serviceId);
    var remaining;
    d, remaining := TakeSlotUpdate(deps, site, req.serviceId);
    var allocationId := NewId("alloc", random);
    a := allocs[allocationId := AllocationRecord(req.serviceId, site, chosen.m.instanceId)];
    res := Ok(AllocateResponse(allocationId, req.serviceId, chosen.m.instanceId, chosen.m.addr,
                               chosen.csciId, chosen.cost, remaining));
    assert Allocated(deps, allocs, req, random, k, d, a, res);
  }

  /** What the deployment POST handler promises, from the table before
      (`d0`) to the status and the table after (`d1`): a blank site or
      service name, or a negative `Gas` or `Cost`, is refused and changes
      nothing; otherwise the prepared deployment is registered. */
  predicate RegisterSpec(d0: Deployments, d: Deployment, buildInstances: (string, int) -> seq<Instance>,
                         res: Status, d1: Deployments)
  {
    && (Blank(d.siteName, GoSpace) || Blank(d.serviceId, GoSpace) ==>
          res == Rejected(MISSING_SITE_OR_SERVICE) && d1 == d0)
    && (!Blank(d.siteName, GoSpace) && !Blank(d.serviceId, GoSpace) && (d.gas < 0 || d.cost < 0) ==>
          res == Rejected(NEGATIVE_GAS_OR_COST) && d1 == d0)
    && (!Blank(d.siteName, GoSpace) && !Blank(d.serviceId, GoSpace) && d.gas >= 0 && d.cost >= 0 ==>
          res == Done && d1 == Register(d0, Prepared(d, buildInstances)))
  }

  /** The body of the deployment POST handler on the deployment table. */
  method RegisterOn(deps: Deployments, d: Deployment, buildInstances: (string, int) -> seq<Instance>)
    returns (res: Status, r: Deployments)
    requires WellFormed(deps)
    ensures WellFormed(r)
    ensures RegisterSpec(deps, d, buildInstances, res, r)
  {
    TrimEmptyIffBlank(d.siteName, GoSpace);
    TrimEmptyIffBlank(d.serviceId, GoSpace);
    r := deps;
    if Trim(d.siteName, GoSpace) == "" || Trim(d.serviceId, GoSpace) == "" {
      return Rejected(MISSING_SITE_OR_SERVICE), r;
    }
    if d.gas < 0 || d.cost < 0 {
      return Rejected(NEGATIVE_GAS_OR_COST), r;
    }
    var prepared := PrepareDeployment(d, buildInstances);
    RegisterWellFormed(deps, prepared);
    r := RegisterUpdate(deps, prepared);
    res := Done;
  }

  /** What the deployment DELETE handler promises: a path without both a
      site and a service segment is refused and changes nothing; otherwise
      that deployment is dropped. */
  predicate DeleteSpec(d0: Deployments, path: string, res: Status, d1: Deployments)
  {
    var parts := Split(TrimPrefix(path, DEPLOYMENTS_PATH), '/');
    && (|parts| < 2 ==> res == Rejected(NEED_SITE_AND_SERVICE) && d1 == d0)
    && (|parts| >= 2 ==> res == Done && d1 == DropDeployment(d0, parts[0], parts[1]))
  }

  /** The body of the deployment DELETE handler on the deployment table. */
  method DeleteOn(deps: Deployments, path: string) returns (res: Status, r: Deployments)
    requires WellFormed(deps)
    ensures WellFormed(r)
    ensures DeleteSpec(deps, path, res, r)
  {
    r := deps;
    var parts := Split(TrimPrefix(path, DEPLOYMENTS_PATH), '/');
    if |parts| < 2 {
      return Rejected(NEED_SITE_AND_SERVICE), r;
    }
    var siteName, serviceId := parts[0], parts[1];
    DropDeploymentWellFormed(deps, siteName, serviceId);
    r := DropUpdate(deps, siteName, serviceId);
    res := Done;
  }

  /** The instance preparation of the deployment handler. */
  method PrepareDeployment(d: Deployment, buildInstances: (string, int) -> seq<Instance>) returns (p: Deployment)
    ensures p == Prepared(d, buildInstances)
  {
    var insts := d.instances;
    if |insts| == 0 {
      insts := BuildInstancesFromCsci(d.csciId, d.siteName, d.gas, buildInstances);
    }
    insts := NormalizeInstances(insts);
    p := d.(instances := insts);
  }

  /** The table write of the deployment handler: the site's map is
      created when missing, then the entry is replaced. */
  method RegisterUpdate(deps: Deployments, d: Deployment) returns (r: Deployments)
    ensures r == Register(deps, d)
  {
    var bySvc: map<string, DeploymentState> := map[];
    if d.siteName in deps {
      bySvc := deps[d.siteName];
    }
    r := deps[d.siteName := bySvc[d.serviceId := DeploymentState(d, |d.instances|)]];
  }

  /** The table write of the deployment delete handler. */
  method DropUpdate(deps: Deployments, site: string, svc: string) returns (r: Deployments)
    ensures r == DropDeployment(deps, site, svc)
  {
    r := deps;
    if site in r {
      var bySvc := r[site] - {svc};
      if |bySvc| == 0 {
        r := r - {site};
      } else {
        r := r[site := bySvc];
      }
    }
  }

  // ---------------------------------------------------------------------
  // The store

  class Store {
    var services: map<string, Service>
    var deployments: Deployments
    var allocations: map<string, AllocationRecord>
    var lastDelay: map<string, int>

    ghost predicate Valid()
      reads this
    {
      WellFormed(deployments)
    }

    /** `NewStore`: every table empty. */
    constructor ()
      ensures Valid()
      ensures services == map[] && deployments == map[] && allocations == map[] && lastDelay == map[]
    {
      services, deployments, allocations, lastDelay := map[], map[], map[], map[];
    }

    /** `Store.Candidates`: one entry per site deploying the service, copied
        from its deployment; nothing changes. */
    method Candidates(serviceId: string) returns (out: seq<Candidate>)
      ensures SiteNames(out) == SitesOffering(deployments, serviceId)
      ensures forall i, j :: 0 <= i < j < |out| ==> out[i].siteName != out[j].siteName
      ensures forall i :: 0 <= i < |out| ==>
                Has(deployments, out[i].siteName, serviceId)
                && out[i] == CandidateOf(out[i].siteName, serviceId, deployments[out[i].siteName][serviceId])
    {
      out := CandidatesOf(deployments, serviceId);
    }

    /** `Store.Allocate`: picks the best eligible measurement, takes a slot
        of its deployment and files the allocation under a new id built from
        eight random bytes. */
    method Allocate(req: AllocateRequest, random: seq<Byte>) returns (res: Result<AllocateResponse, string>)
      requires Valid() && |random| == 8
      modifies this
      ensures Valid() && services == old(services)
      ensures AllocateSpec(old(deployments), old(allocations), old(lastDelay), req, random, res,
                           deployments, allocations, lastDelay)
    {
      var d, a, ld, k;
      res, d, a, ld, k := AllocateOn(deployments, allocations, lastDelay, req, random);
      deployments, allocations, lastDelay := d, a, ld;
    }

    /** `Store.Release`: gives the slot back and forgets the allocation. */
    method Release(allocationId: string) returns (res: Status)
      requires Valid()
      modifies this
      ensures Valid() && services == old(services) && lastDelay == old(lastDelay)
      ensures allocationId !in old(allocations) ==>
                res == Rejected(NOT_FOUND) && deployments == old(deployments) && allocations == old(allocations)
      ensures allocationId in old(allocations) ==>
                res == Done && allocations == old(allocations) - {allocationId}
                && deployments == ReturnSlot(old(deployments), old(allocations)[allocationId])
    {
      if allocationId !in allocations {
        return Rejected(NOT_FOUND);
      }
      var rec := allocations[allocationId];
      ReturnSlotWellFormed(deployments, rec);
      deployments := ReturnSlotUpdate(deployments, rec);
      allocations := allocations - {allocationId};
      return Done;
    }

    /** The release handler: a blank id is refused before the store is
        consulted. */
    method ReleaseRequested(allocationId: string) returns (res: Status)
      requires Valid()
      modifies this
      ensures Valid() && services == old(services) && lastDelay == old(lastDelay)
      ensures Blank(allocationId, GoSpace) ==>
                res == Rejected(MISSING_ALLOCATION_ID) && deployments == old(deployments) && allocations == old(allocations)
      ensures !Blank(allocationId, GoSpace) && allocationId !in old(allocations) ==>
                res == Rejected(NOT_FOUND) && deployments == old(deployments) && allocations == old(allocations)
      ensures !Blank(allocationId, GoSpace) && allocationId in old(allocations) ==>
                res == Done && allocations == old(allocations) - {allocationId}
                && deployments == ReturnSlot(old(deployments), old(allocations)[allocationId])
    {
      TrimEmptyIffBlank(allocationId, GoSpace);
      if Trim(allocationId, GoSpace) == "" {
        return Rejected(MISSING_ALLOCATION_ID);
      }
      res := Release(allocationId);
    }

    /** Service POST: a blank id is refused; otherwise the service is stored
        under its id as given. */
    method UpsertService(s: Service) returns (res: Status)
      requires Valid()
      modifies this
      ensures Valid() && deployments == old(deployments) && allocations == old(allocations) && lastDelay == old(lastDelay)
      ensures Blank(s.serviceId, GoSpace) ==> res == Rejected(MISSING_SERVICE_ID) && services == old(services)
      ensures !Blank(s.serviceId, GoSpace) ==> res == Done && services == old(services)[s.serviceId := s]
    {
      TrimEmptyIffBlank(s.serviceId, GoSpace);
      if Trim(s.serviceId, GoSpace) == "" {
        return Rejected(MISSING_SERVICE_ID);
      }
      services := services[s.serviceId := s];
      return Done;
    }

    /** Service DELETE on `/api/services/{id}`: removes the service and its
        deployment at every site. */
    method DeleteService(path: string) returns (res: Status)
      requires Valid()
      modifies this
      ensures Valid() && allocations == old(allocations) && lastDelay == old(lastDelay)
      ensures var id := TrimPrefix(path, SERVICES_PATH);
        && (id == "" ==> res == Rejected(MISSING_SERVICE_ID) && services == old(services) && deployments == old(deployments))
        && (id != "" ==> res == Done && services == old(services) - {id}
                         && deployments == CascadeDelete(old(deployments), id))
    {
      var id := TrimPrefix(path, SERVICES_PATH);
      if id == "" {
        return Rejected(MISSING_SERVICE_ID);
      }
      services := services - {id};
      deployments := CascadeLoop(deployments, id);
      CascadeDeleteSpec(old(deployments), id);
      return Done;
    }

    /** Deployment POST: validates the names and amounts, prepares the
        instances and replaces the entry, resetting its free slots. */
    method RegisterDeployment(d: Deployment, buildInstances: (string, int) -> seq<Instance>) returns (res: Status)
      requires Valid()
      modifies this
      ensures Valid() && services == old(services) && allocations == old(allocations) && lastDelay == old(lastDelay)
      ensures RegisterSpec(old(deployments), d, buildInstances, res, deployments)
    {
      var deps;
      res, deps := RegisterOn(deployments, d, buildInstances);
      deployments := deps;
    }

    /** Deployment DELETE on `/api/deployments/{SiteName}/{ServiceID}`. */
    method DeleteDeployment(path: string) returns (res: Status)
      requires Valid()
      modifies this
      ensures Valid() && services == old(services) && allocations == old(allocations) && lastDelay == old(lastDelay)
      ensures DeleteSpec(old(deployments), path, res, deployments)
    {
      var deps;
      res, deps := DeleteOn(deployments, path);
      deployments := deps;
    }

    /** The c-ps view: one row per deployment, nothing changes. */
    method View() returns (rows: map<string, map<string, CpsViewRow>>)
      ensures rows == ViewOf(deployments, services, lastDelay)
    {
      rows := ViewLoop(deployments, services, lastDelay);
    }
  }
}
