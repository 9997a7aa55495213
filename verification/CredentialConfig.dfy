/** The credential side of electron/config/store.ts: which config an update would write, and which secret
    it would add and drop. Only the fields that decide this are modelled. */
module CredentialConfig {
  import opened Options

  type Ref = nat
  type ProviderId = nat

  /** `shape` stands for the fields of the route shape other than the credential reference. */
  datatype Provider = Provider(id: ProviderId, revision: nat, shape: nat, apiKeyRef: Option<Ref>)

  datatype Config = Config(providers: seq<Provider>, defaultProvider: ProviderId, webSearchRef: Option<Ref>)

  datatype Request =
    | UpdateProvider(providerId: Option<ProviderId>, shape: nat)
    | UpdateSettings(providerId: Option<ProviderId>, shape: nat, withKey: bool)
    | ChangeModels(id: ProviderId, shape: nat)
    | CopyProvider(source: ProviderId, id: ProviderId)
    | DeleteProvider(id: ProviderId, fallback: Option<ProviderId>)
    | SetCredential(providerId: Option<ProviderId>)
    | ClearCredential(providerId: Option<ProviderId>)
    | SetWebSearchCredential
    | ClearWebSearchCredential
    | OtherUpdate

  /** What to write, the secret stored for it before, and the one to delete after. */
  datatype Plan = Plan(next: Config, added: Option<Ref>, dropped: Option<Ref>) | Refused

  ghost predicate UniqueIds(providers: seq<Provider>) {
    forall i, j :: 0 <= i < j < |providers| ==> providers[i].id != providers[j].id
  }

  function Find(providers: seq<Provider>, id: ProviderId): (r: Option<nat>)
    ensures r.Some? ==> r.value < |providers| && providers[r.value].id == id
    ensures r.None? ==> forall p :: p in providers ==> p.id != id
  {
    if providers == [] then None
    else if providers[0].id == id then Some(0)
    else
      match Find(providers[1..], id)
      case None => None
      case Some(i) => Some(i + 1)
  }

  function Without(providers: seq<Provider>, id: ProviderId): (r: seq<Provider>)
    ensures forall p :: p in r <==> p in providers && p.id != id
  {
    if providers == [] then []
    else if providers[0].id == id then Without(providers[1..], id)
    else [providers[0]] + Without(providers[1..], id)
  }

  lemma {:induction false} WithoutStaysUnique(providers: seq<Provider>, id: ProviderId)
    requires UniqueIds(providers)
    ensures UniqueIds(Without(providers, id))
  {
    if providers != [] {
      WithoutStaysUnique(providers[1..], id);
      var rest := Without(providers[1..], id);
      forall k | 0 <= k < |rest| ensures rest[k].id != providers[0].id {
        assert rest[k] in providers[1..];
      }
    }
  }

  ghost predicate HasId(providers: seq<Provider>, id: ProviderId) {
    exists p :: p in providers && p.id == id
  }

  /** The provider a credential request means: the named one, else the default, else the first. */
  function Target(c: Config, named: Option<ProviderId>): (i: nat)
    requires c.providers != []
    ensures i < |c.providers|
    ensures named.Some? && HasId(c.providers, named.value) ==> c.providers[i].id == named.value
    ensures !(named.Some? && HasId(c.providers, named.value)) && HasId(c.providers, c.defaultProvider) ==>
              c.providers[i].id == c.defaultProvider
  {
    match Find(c.providers, if named.Some? then named.value else c.defaultProvider)
    case Some(i) => i
    case None => match Find(c.providers, c.defaultProvider) case Some(i) => i case None => 0
  }

  function WithRef(c: Config, i: nat, ref: Option<Ref>): Config
    requires i < |c.providers|
  {
    var p := c.providers[i];
    c.(providers := c.providers[i := p.(apiKeyRef := ref, revision := p.revision + 1)])
  }

  /** A provider's route changes: its revision goes up if the shape really is another. */
  function WithShape(c: Config, i: nat, shape: nat): Config
    requires i < |c.providers|
  {
    var p := c.providers[i];
    c.(providers := c.providers[i :=
        p.(shape := shape, revision := if p.shape == shape then p.revision else p.revision + 1)])
  }

  /** applyProviderUpdate. */
  function Edited(c: Config, named: Option<ProviderId>, shape: nat, activate: bool): Config {
    var id := if named.Some? then named.value else c.defaultProvider;
    var edited :=
      match Find(c.providers, id)
      case Some(i) => WithShape(c, i, shape)
      case None => c.(providers := c.providers + [Provider(id, 1, shape, None)]);
    if activate then edited.(defaultProvider := id) else edited
  }

  function Fallback(c: Config, preferred: Option<ProviderId>): (i: nat)
    requires c.providers != []
    ensures i < |c.providers|
    ensures preferred.Some? && HasId(c.providers, preferred.value) ==> c.providers[i].id == preferred.value
  {
    var named := if preferred.Some? then Find(c.providers, preferred.value) else None;
    if named.Some? then named.value
    else match Find(c.providers, c.defaultProvider) case Some(i) => i case None => 0
  }

  /** The update of `#apply`, given the reference that a new secret would get. */
  function Prepare(c: Config, request: Request, newRef: Ref): Plan
    requires c.providers != []
  {
    match request
    case UpdateProvider(named, shape) => Plan(Edited(c, named, shape, true), None, None)
    case UpdateSettings(named, shape, withKey) =>
      var edited := Edited(c, named, shape, false);
      if !withKey then Plan(edited, None, None)
      else
        var i := Target(edited, named);
        Plan(WithRef(edited, i, Some(newRef)), Some(newRef), edited.providers[i].apiKeyRef)
    case ChangeModels(id, shape) =>
      (match Find(c.providers, id)
       case None => Refused
       case Some(i) => Plan(WithShape(c, i, shape), None, None))
    case CopyProvider(source, id) =>
      (match Find(c.providers, source)
       case None => Refused
       case Some(i) =>
         if Find(c.providers, id).Some? then Refused
         else
           var copy := c.providers[i].(id := id, revision := 1, apiKeyRef := None);
           Plan(c.(providers := c.providers + [copy]), None, None))
    case DeleteProvider(id, fallback) =>
      if |c.providers| <= 1 then Refused
      else
        (match Find(c.providers, id)
         case None => Refused
         case Some(i) =>
           var left := c.(providers := Without(c.providers, id));
           if left.providers == [] then Refused
           else Plan(if c.defaultProvider == id
                     then left.(defaultProvider := left.providers[Fallback(left, fallback)].id) else left,
                     None, c.providers[i].apiKeyRef))
    case SetCredential(named) =>
      var i := Target(c, named);
      Plan(WithRef(c, i, Some(newRef)), Some(newRef), c.providers[i].apiKeyRef)
    case ClearCredential(named) =>
      var i := Target(c, named);
      Plan(WithRef(c, i, None), None, c.providers[i].apiKeyRef)
    case SetWebSearchCredential => Plan(c.(webSearchRef := Some(newRef)), Some(newRef), c.webSearchRef)
    case ClearWebSearchCredential => Plan(c.(webSearchRef := None), None, c.webSearchRef)
    case OtherUpdate => Plan(c, None, None)
  }

  lemma AddedIsTheNewRef(c: Config, request: Request, newRef: Ref)
    requires c.providers != []
    ensures Prepare(c, request, newRef).Plan? && Prepare(c, request, newRef).added.Some? ==>
        Prepare(c, request, newRef).added.value == newRef
  {
  }

  /** No two holders name the same secret. */
  ghost predicate NoSharing(c: Config) {
    && (forall p, q :: p in c.providers && q in c.providers ==>
          p.apiKeyRef.Some? && p.apiKeyRef == q.apiKeyRef ==> p.id == q.id)
    && (forall p :: p in c.providers && p.apiKeyRef.Some? ==> p.apiKeyRef != c.webSearchRef)
  }

  ghost predicate Sound(c: Config) {
    c.providers != [] && UniqueIds(c.providers) && NoSharing(c)
  }

  ghost predicate Holds(c: Config, ref: Ref) {
    c.webSearchRef == Some(ref) || exists p :: p in c.providers && p.apiKeyRef == Some(ref)
  }

  /** Whatever the planned config holds was held before or is the added secret; the dropped one it lets go. */
  ghost predicate PlanFits(c: Config, plan: Plan, newRef: Ref) {
    plan.Plan? ==>
      && Sound(plan.next)
      && (plan.added.Some? ==> plan.added.value == newRef && Holds(plan.next, newRef))
      && (forall r: Ref :: Holds(plan.next, r) ==> plan.added == Some(r) || (Holds(c, r) && plan.dropped != Some(r)))
      && (forall r: Ref :: Holds(c, r) ==> Holds(plan.next, r) || plan.dropped == Some(r))
      && (plan.dropped.Some? ==> Holds(c, plan.dropped.value))
  }

  /** Replacing one provider's reference, as credential updates do. */
  lemma WithRefFits(c: Config, i: nat, ref: Option<Ref>, newRef: Ref)
    requires Sound(c) && i < |c.providers| && !Holds(c, newRef) && (ref.Some? ==> ref.value == newRef)
    ensures PlanFits(c, Plan(WithRef(c, i, ref), ref, c.providers[i].apiKeyRef), newRef)
  {
    var next := WithRef(c, i, ref);
    var replaced := c.providers[i];
    assert replaced in c.providers && next.providers[i] in next.providers;
    forall p | p in next.providers ensures p == next.providers[i] || (p in c.providers && p.id != replaced.id) {
      var k :| 0 <= k < |next.providers| && next.providers[k] == p;
      assert k != i ==> c.providers[k] == p;
    }
    forall p | p in c.providers ensures p == replaced || p in next.providers {
      var k :| 0 <= k < |c.providers| && c.providers[k] == p;
      assert k != i ==> next.providers[k] == p;
    }
  }

  /** Changing what is not a reference keeps who holds what. */
  lemma SameHoldersFit(c: Config, next: Config, newRef: Ref)
    requires Sound(c) && next.providers != [] && UniqueIds(next.providers) && next.webSearchRef == c.webSearchRef
    requires forall q :: q in next.providers && q.apiKeyRef.Some? ==>
        exists p :: p in c.providers && p.id == q.id && p.apiKeyRef == q.apiKeyRef
    requires forall p :: p in c.providers && p.apiKeyRef.Some? ==>
        exists q :: q in next.providers && p.id == q.id && p.apiKeyRef == q.apiKeyRef
    ensures PlanFits(c, Plan(next, None, None), newRef)
    ensures forall r: Ref :: Holds(next, r) <==> Holds(c, r)
  {
  }

  lemma WithShapeFits(c: Config, i: nat, shape: nat, newRef: Ref)
    requires Sound(c) && i < |c.providers|
    ensures PlanFits(c, Plan(WithShape(c, i, shape), None, None), newRef)
    ensures forall r: Ref :: Holds(WithShape(c, i, shape), r) <==> Holds(c, r)
  {
    var next := WithShape(c, i, shape);
    forall q | q in next.providers && q.apiKeyRef.Some?
        ensures exists p :: p in c.providers && p.id == q.id && p.apiKeyRef == q.apiKeyRef
    {
      var k :| 0 <= k < |next.providers| && next.providers[k] == q;
      assert c.providers[k] in c.providers;
    }
    forall p | p in c.providers && p.apiKeyRef.Some?
        ensures exists q :: q in next.providers && p.id == q.id && p.apiKeyRef == q.apiKeyRef
    {
      var k :| 0 <= k < |c.providers| && c.providers[k] == p;
      assert next.providers[k] in next.providers;
    }
    SameHoldersFit(c, next, newRef);
  }

  /** A provider is added without a credential. */
  lemma AddingFits(c: Config, added: Provider, newRef: Ref)
    requires Sound(c) && added.apiKeyRef.None? && forall p :: p in c.providers ==> p.id != added.id
    ensures PlanFits(c, Plan(c.(providers := c.providers + [added]), None, None), newRef)
    ensures forall r: Ref :: Holds(c.(providers := c.providers + [added]), r) <==> Holds(c, r)
  {
    var next := c.(providers := c.providers + [added]);
    forall i | 0 <= i < |c.providers| ensures c.providers[i].id != added.id {
      assert c.providers[i] in c.providers;
    }
    SameHoldersFit(c, next, newRef);
  }

  lemma EditedFits(c: Config, named: Option<ProviderId>, shape: nat, activate: bool, newRef: Ref)
    requires Sound(c)
    ensures Sound(Edited(c, named, shape, activate))
    ensures PlanFits(c, Plan(Edited(c, named, shape, activate), None, None), newRef)
    ensures forall r: Ref :: Holds(Edited(c, named, shape, activate), r) <==> Holds(c, r)
  {
    var id := if named.Some? then named.value else c.defaultProvider;
    match Find(c.providers, id)
    case Some(i) => WithShapeFits(c, i, shape, newRef);
    case None => AddingFits(c, Provider(id, 1, shape, None), newRef);
  }

  lemma DeletingFits(c: Config, i: nat, id: ProviderId, next: Config, newRef: Ref)
    requires Sound(c) && |c.providers| > 1 && i < |c.providers| && c.providers[i].id == id
    requires next.providers == Without(c.providers, id) && next.webSearchRef == c.webSearchRef
    ensures PlanFits(c, Plan(next, None, c.providers[i].apiKeyRef), newRef)
  {
    WithoutStaysUnique(c.providers, id);
    OthersRemain(c.providers, id);
    assert c.providers[i] in c.providers;
    forall p | p in c.providers ensures p == c.providers[i] || p in next.providers {
      var k :| 0 <= k < |c.providers| && c.providers[k] == p;
    }
  }

  lemma OthersRemain(providers: seq<Provider>, id: ProviderId)
    requires UniqueIds(providers) && |providers| > 1
    ensures Without(providers, id) != []
  {
    var kept := if providers[0].id == id then providers[1] else providers[0];
    assert kept in providers && kept.id != id;
    assert kept in Without(providers, id);
  }

  lemma WebSearchFits(c: Config, ref: Option<Ref>, newRef: Ref)
    requires Sound(c) && !Holds(c, newRef) && (ref.Some? ==> ref.value == newRef)
    ensures PlanFits(c, Plan(c.(webSearchRef := ref), ref, c.webSearchRef), newRef)
  {
  }

  /** Every update, from a sound config and an unused reference: the planned config is sound, and holds
      just what was held, less the secret to delete, plus the one stored. */
  lemma EveryPlanFits(c: Config, request: Request, newRef: Ref)
    requires Sound(c) && !Holds(c, newRef)
    ensures PlanFits(c, Prepare(c, request, newRef), newRef)
  {
    hide Edited, Find, PlanFits;
    match request
    case UpdateProvider(named, shape) => EditedFits(c, named, shape, true, newRef);
    case UpdateSettings(named, shape, withKey) => SettingsFit(c, named, shape, withKey, newRef);
    case ChangeModels(id, shape) =>
      if Find(c.providers, id).Some? {
        WithShapeFits(c, Find(c.providers, id).value, shape, newRef);
      } else {
        RefusedFits(c, newRef);
      }
    case CopyProvider(source, id) =>
      if Find(c.providers, source).Some? && Find(c.providers, id).None? {
        AddingFits(c, c.providers[Find(c.providers, source).value].(id := id, revision := 1, apiKeyRef := None),
            newRef);
      } else {
        RefusedFits(c, newRef);
      }
    case DeleteProvider(id, fallback) =>
      var plan := Prepare(c, request, newRef);
      if plan.Refused? {
        RefusedFits(c, newRef);
      } else {
        DeletingFits(c, Find(c.providers, id).value, id, plan.next, newRef);
      }
    case SetCredential(named) => WithRefFits(c, Target(c, named), Some(newRef), newRef);
    case ClearCredential(named) => WithRefFits(c, Target(c, named), None, newRef);
    case SetWebSearchCredential => WebSearchFits(c, Some(newRef), newRef);
    case ClearWebSearchCredential => WebSearchFits(c, None, newRef);
    case OtherUpdate => NothingChangesFits(c, newRef);
  }

  lemma RefusedFits(c: Config, newRef: Ref)
    ensures PlanFits(c, Refused, newRef)
  {
  }

  lemma NothingChangesFits(c: Config, newRef: Ref)
    requires Sound(c)
    ensures PlanFits(c, Plan(c, None, None), newRef)
  {
  }

  lemma SettingsFit(c: Config, named: Option<ProviderId>, shape: nat, withKey: bool, newRef: Ref)
    requires Sound(c) && !Holds(c, newRef)
    ensures PlanFits(c, Prepare(c, UpdateSettings(named, shape, withKey), newRef), newRef)
  {
    var edited := Edited(c, named, shape, false);
    EditedFits(c, named, shape, false, newRef);
    if withKey {
      var i := Target(edited, named);
      WithRefFits(edited, i, Some(newRef), newRef);
      hide Edited, Sound, Find, WithRef, Holds;
    }
  }

  /** The same provider before and after: its revision never falls, and rises if its route or key changes. */
  ghost predicate RevisionFollows(p: Provider, q: Provider) {
    q.revision >= p.revision && (q.shape != p.shape || q.apiKeyRef != p.apiKeyRef ==> q.revision > p.revision)
  }

  ghost predicate RevisionsFollow(before: seq<Provider>, after: seq<Provider>) {
    forall p, q :: p in before && q in after && p.id == q.id ==> RevisionFollows(p, q)
  }

  lemma OneChangeFollows(c: Config, i: nat, q: Provider)
    requires Sound(c) && i < |c.providers| && q.id == c.providers[i].id && RevisionFollows(c.providers[i], q)
    ensures RevisionsFollow(c.providers, c.providers[i := q])
  {
  }

  lemma EditFollows(c: Config, named: Option<ProviderId>, shape: nat, activate: bool)
    requires Sound(c)
    ensures RevisionsFollow(c.providers, Edited(c, named, shape, activate).providers)
  {
    var id := if named.Some? then named.value else c.defaultProvider;
    match Find(c.providers, id)
    case Some(i) => OneChangeFollows(c, i, WithShape(c, i, shape).providers[i]);
    case None =>
  }

  /** Setting a key after an edit raises the revision once more. */
  lemma EditAndKeyFollow(c: Config, named: Option<ProviderId>, shape: nat, i: nat, ref: Option<Ref>)
    requires Sound(c) && i < |Edited(c, named, shape, false).providers|
    ensures RevisionsFollow(c.providers, WithRef(Edited(c, named, shape, false), i, ref).providers)
  {
    var edited := Edited(c, named, shape, false);
    var keyed := WithRef(edited, i, ref);
    EditFollows(c, named, shape, false);
    hide Edited, Sound;
    forall p, q | p in c.providers && q in keyed.providers && p.id == q.id ensures RevisionFollows(p, q) {
      var k :| 0 <= k < |keyed.providers| && keyed.providers[k] == q;
      assert edited.providers[k] in edited.providers;
      assert RevisionFollows(p, edited.providers[k]);
    }
  }

  /** Every update: a provider that stays has a higher revision if its route shape or its key reference is
      another, and never a lower one. */
  lemma RevisionsFollowRoutes(c: Config, request: Request, newRef: Ref)
    requires Sound(c) && Prepare(c, request, newRef).Plan?
    ensures RevisionsFollow(c.providers, Prepare(c, request, newRef).next.providers)
  {
    match request
    case UpdateProvider(named, shape) => EditFollows(c, named, shape, true);
    case UpdateSettings(named, shape, withKey) =>
      EditFollows(c, named, shape, false);
      if withKey {
        EditAndKeyFollow(c, named, shape, Target(Edited(c, named, shape, false), named), Some(newRef));
      }
    case ChangeModels(id, shape) =>
      OneChangeFollows(c, Find(c.providers, id).value,
          WithShape(c, Find(c.providers, id).value, shape).providers[Find(c.providers, id).value]);
    case SetCredential(named) => OneChangeFollows(c, Target(c, named),
        WithRef(c, Target(c, named), Some(newRef)).providers[Target(c, named)]);
    case ClearCredential(named) => OneChangeFollows(c, Target(c, named),
        WithRef(c, Target(c, named), None).providers[Target(c, named)]);
    case _ => SameProvidersFollow(c);
  }

  lemma SameProvidersFollow(c: Config)
    requires Sound(c)
    ensures RevisionsFollow(c.providers, c.providers)
  {
  }

  lemma UpdateKeepsId(providers: seq<Provider>, i: nat, q: Provider, id: ProviderId)
    requires i < |providers| && q.id == providers[i].id && HasId(providers, id)
    ensures HasId(providers[i := q], id)
  {
    var p :| p in providers && p.id == id;
    var k :| 0 <= k < |providers| && providers[k] == p;
    assert providers[i := q][k] in providers[i := q];
  }

  lemma EditKeepsId(c: Config, named: Option<ProviderId>, shape: nat, activate: bool, id: ProviderId)
    requires HasId(c.providers, id) || id == (if named.Some? then named.value else c.defaultProvider)
    ensures HasId(Edited(c, named, shape, activate).providers, id)
  {
    var edited := Edited(c, named, shape, activate);
    match Find(c.providers, if named.Some? then named.value else c.defaultProvider)
    case Some(i) =>
      assert c.providers[i] in c.providers;
      UpdateKeepsId(c.providers, i, edited.providers[i], id);
    case None =>
      assert edited.providers[|c.providers|] in edited.providers;
      if HasId(c.providers, id) {
        var p :| p in c.providers && p.id == id;
        assert p in edited.providers;
      }
  }

  /** Only deleting a provider takes its id away. */
  lemma IdsStay(c: Config, request: Request, newRef: Ref, id: ProviderId)
    requires Sound(c) && HasId(c.providers, id) && Prepare(c, request, newRef).Plan?
    requires request.DeleteProvider? ==> request.id != id
    ensures HasId(Prepare(c, request, newRef).next.providers, id)
  {
    var next := Prepare(c, request, newRef).next;
    var p :| p in c.providers && p.id == id;
    hide Find, Edited;
    match request
    case UpdateProvider(named, shape) => EditKeepsId(c, named, shape, true, id);
    case UpdateSettings(named, shape, withKey) =>
      EditKeepsId(c, named, shape, false, id);
      var edited := Edited(c, named, shape, false);
      if withKey {
        var i := Target(edited, named);
        UpdateKeepsId(edited.providers, i, WithRef(edited, i, Some(newRef)).providers[i], id);
      }
    case ChangeModels(named, shape) =>
      var i := Find(c.providers, named).value;
      UpdateKeepsId(c.providers, i, WithShape(c, i, shape).providers[i], id);
    case SetCredential(named) => UpdateKeepsId(c.providers, Target(c, named),
        WithRef(c, Target(c, named), Some(newRef)).providers[Target(c, named)], id);
    case ClearCredential(named) => UpdateKeepsId(c.providers, Target(c, named),
        WithRef(c, Target(c, named), None).providers[Target(c, named)], id);
    case _ => assert p in next.providers;
  }

  /** No update of these kinds leaves a default provider that is not there, deleting the default included. */
  lemma DefaultStaysConfigured(c: Config, request: Request, newRef: Ref)
    requires Sound(c) && HasId(c.providers, c.defaultProvider) && Prepare(c, request, newRef).Plan?
    ensures HasId(Prepare(c, request, newRef).next.providers, Prepare(c, request, newRef).next.defaultProvider)
  {
    if request.DeleteProvider? && request.id == c.defaultProvider {
      var left := c.(providers := Without(c.providers, request.id));
      assert left.providers[Fallback(left, request.fallback)] in left.providers;
    } else if request.UpdateProvider? {
      EditKeepsId(c, request.providerId, request.shape, true,
          Edited(c, request.providerId, request.shape, true).defaultProvider);
    } else {
      hide Sound;
      IdsStay(c, request, newRef, c.defaultProvider);
    }
  }

  /** The provider at `i` is the one a credential request means: the one it names, else the default, else the first. */
  ghost predicate Meant(c: Config, named: Option<ProviderId>, i: nat) {
    && i < |c.providers|
    && if named.Some? && HasId(c.providers, named.value) then c.providers[i].id == named.value
       else if HasId(c.providers, c.defaultProvider) then c.providers[i].id == c.defaultProvider
       else i == 0
  }

  /** The provider meant has the key and a new revision, and nothing else has changed. */
  ghost predicate Rekeyed(c: Config, next: Config, i: nat, key: Option<Ref>)
    requires i < |c.providers|
  {
    var p := c.providers[i];
    next == c.(providers := c.providers[i := Provider(p.id, p.revision + 1, p.shape, key)])
  }

  /** The route of the provider is the given one, with a new revision if it was another; without that provider there
      is now one with this route and no key, behind the others. */
  ghost predicate Routed(was: seq<Provider>, now: seq<Provider>, id: ProviderId, shape: nat) {
    && (!HasId(was, id) ==> now == was + [Provider(id, 1, shape, None)])
    && forall i :: 0 <= i < |was| && was[i].id == id ==>
         var p := was[i];
         now == was[i := Provider(id, if p.shape == shape then p.revision else p.revision + 1, shape, p.apiKeyRef)]
  }

  /** The default after a deletion: as it was, unless it was deleted; then the fallback asked for if it is there, or
      else the first provider left. */
  ghost predicate DefaultAfter(c: Config, id: ProviderId, fallback: Option<ProviderId>, left: seq<Provider>,
      chosen: ProviderId)
    requires left != []
  {
    if c.defaultProvider != id then chosen == c.defaultProvider
    else if fallback.Some? && HasId(left, fallback.value) then chosen == fallback.value
    else chosen == left[0].id
  }

  /** What each update is to write, store before and delete after, and which are refused. */
  ghost predicate Planned(c: Config, request: Request, newRef: Ref, plan: Plan) {
    match request
    case UpdateProvider(named, shape) =>
      var id := if named.Some? then named.value else c.defaultProvider;
      && plan.Plan? && plan.added == None && plan.dropped == None
      && Routed(c.providers, plan.next.providers, id, shape)
      && plan.next == c.(providers := plan.next.providers, defaultProvider := id)
    case UpdateSettings(named, shape, withKey) =>
      plan.Plan? && exists routed: Config ::
        && Routed(c.providers, routed.providers, if named.Some? then named.value else c.defaultProvider, shape)
        && routed == c.(providers := routed.providers)
        && if withKey then KeyPlanned(routed, named, Some(newRef), plan)
           else plan.next == routed && plan.added == None && plan.dropped == None
    case ChangeModels(id, shape) =>
      if !HasId(c.providers, id) then plan.Refused?
      else
        && plan.Plan? && plan.added == None && plan.dropped == None
        && Routed(c.providers, plan.next.providers, id, shape) && plan.next == c.(providers := plan.next.providers)
    case CopyProvider(source, id) =>
      if !HasId(c.providers, source) || HasId(c.providers, id) then plan.Refused?
      else
        && plan.Plan? && plan.added == None && plan.dropped == None
        && forall p :: p in c.providers && p.id == source ==>
             plan.next == c.(providers := c.providers + [Provider(id, 1, p.shape, None)])
    case DeleteProvider(id, fallback) =>
      if |c.providers| <= 1 || !HasId(c.providers, id) then plan.Refused?
      else
        && plan.Plan? && plan.added == None && plan.next.providers != []
        && plan.next == c.(providers := plan.next.providers, defaultProvider := plan.next.defaultProvider)
        && (forall i :: 0 <= i < |c.providers| && c.providers[i].id == id ==>
              && plan.next.providers == c.providers[..i] + c.providers[i + 1..]
              && plan.dropped == c.providers[i].apiKeyRef)
        && DefaultAfter(c, id, fallback, plan.next.providers, plan.next.defaultProvider)
    case SetCredential(named) => KeyPlanned(c, named, Some(newRef), plan)
    case ClearCredential(named) => KeyPlanned(c, named, None, plan)
    case SetWebSearchCredential => plan == Plan(c.(webSearchRef := Some(newRef)), Some(newRef), c.webSearchRef)
    case ClearWebSearchCredential => plan == Plan(c.(webSearchRef := None), None, c.webSearchRef)
    case OtherUpdate => plan == Plan(c, None, None)
  }

  /** The key of the provider meant is set or cleared; a new one is stored before, the replaced one deleted after. */
  ghost predicate KeyPlanned(c: Config, named: Option<ProviderId>, key: Option<Ref>, plan: Plan) {
    && plan.Plan? && plan.added == key
    && exists i: nat :: Meant(c, named, i) && Rekeyed(c, plan.next, i, key) && plan.dropped == c.providers[i].apiKeyRef
  }

  lemma TargetIsMeant(c: Config, named: Option<ProviderId>)
    requires c.providers != []
    ensures Meant(c, named, Target(c, named))
  {
    hide Find;
  }

  lemma KeyIsPlanned(c: Config, named: Option<ProviderId>, key: Option<Ref>)
    requires c.providers != []
    ensures var i := Target(c, named);
            KeyPlanned(c, named, key, Plan(WithRef(c, i, key), key, c.providers[i].apiKeyRef))
  {
    hide Target, Meant;
    TargetIsMeant(c, named);
    assert Rekeyed(c, WithRef(c, Target(c, named), key), Target(c, named), key);
  }

  lemma ShapeIsRouted(c: Config, i: nat, shape: nat)
    requires UniqueIds(c.providers) && i < |c.providers|
    ensures Routed(c.providers, WithShape(c, i, shape).providers, c.providers[i].id, shape)
  {
    assert c.providers[i] in c.providers;
  }

  lemma EditIsRouted(c: Config, named: Option<ProviderId>, shape: nat, activate: bool)
    requires UniqueIds(c.providers)
    ensures var id := if named.Some? then named.value else c.defaultProvider;
            && Routed(c.providers, Edited(c, named, shape, activate).providers, id, shape)
            && Edited(c, named, shape, activate) == c.(providers := Edited(c, named, shape, activate).providers,
                                                       defaultProvider := if activate then id else c.defaultProvider)
  {
    var id := if named.Some? then named.value else c.defaultProvider;
    match Find(c.providers, id)
    case Some(i) =>
      ShapeIsRouted(c, i, shape);
      hide Routed;
    case None =>
      assert forall i :: 0 <= i < |c.providers| ==> c.providers[i] in c.providers;
  }

  lemma {:induction false} WithoutCutsOne(providers: seq<Provider>, i: nat)
    requires UniqueIds(providers) && i < |providers|
    ensures Without(providers, providers[i].id) == providers[..i] + providers[i + 1..]
  {
    var id := providers[i].id;
    if i == 0 {
      NothingToCut(providers[1..], id);
    } else {
      var first, rest := providers[0], providers[1..];
      var before, behind := rest[..i - 1], rest[i..];
      assert providers[..i] == [first] + before && providers[i + 1..] == behind;
      assert first.id != id && rest[i - 1].id == id;
      assert Without(providers, id) == [first] + Without(rest, id);
      hide Without;
      WithoutCutsOne(rest, i - 1);
      JoinedInFront(first, before, behind);
    }
  }

  lemma JoinedInFront(first: Provider, before: seq<Provider>, behind: seq<Provider>)
    ensures [first] + (before + behind) == ([first] + before) + behind
  {
  }

  lemma {:induction false} NothingToCut(providers: seq<Provider>, id: ProviderId)
    requires forall i :: 0 <= i < |providers| ==> providers[i].id != id
    ensures Without(providers, id) == providers
  {
    if providers != [] {
      NothingToCut(providers[1..], id);
    }
  }

  lemma FoundIsThere(providers: seq<Provider>, id: ProviderId)
    ensures Find(providers, id).Some? <==> HasId(providers, id)
  {
    var found := Find(providers, id);
    assert found.Some? ==> providers[found.value] in providers;
  }

  lemma FallbackIsDefault(c: Config, id: ProviderId, fallback: Option<ProviderId>, left: Config)
    requires left == c.(providers := left.providers) && left.providers != [] && !HasId(left.providers, id)
    ensures DefaultAfter(c, id, fallback, left.providers,
              if c.defaultProvider == id then left.providers[Fallback(left, fallback)].id else c.defaultProvider)
  {
    FoundIsThere(left.providers, id);
    hide Find;
  }

  lemma OthersAreLeft(providers: seq<Provider>, i: nat, id: ProviderId)
    requires UniqueIds(providers) && |providers| > 1 && i < |providers| && providers[i].id == id
    ensures Without(providers, id) != [] && !HasId(Without(providers, id), id)
    ensures forall k :: 0 <= k < |providers| && providers[k].id == id ==>
              k == i && Without(providers, id) == providers[..k] + providers[k + 1..]
  {
    OthersRemain(providers, id);
    WithoutCutsOne(providers, i);
  }

  lemma DeletionIsPlanned(c: Config, id: ProviderId, fallback: Option<ProviderId>, newRef: Ref)
    requires Sound(c)
    ensures Planned(c, DeleteProvider(id, fallback), newRef, Prepare(c, DeleteProvider(id, fallback), newRef))
  {
    hide Find, Without, DefaultAfter, Fallback;
    var found := Find(c.providers, id);
    if found.Some? {
      assert c.providers[found.value] in c.providers;
      if |c.providers| > 1 {
        OthersAreLeft(c.providers, found.value, id);
        FallbackIsDefault(c, id, fallback, c.(providers := Without(c.providers, id)));
      }
    }
  }

  /** Every update, in the words of its request. */
  lemma PlannedExactly(c: Config, request: Request, newRef: Ref)
    requires Sound(c)
    ensures Planned(c, request, newRef, Prepare(c, request, newRef))
  {
    hide Find, Edited, Routed, KeyPlanned, Target, DefaultAfter;
    match request
    case UpdateProvider(named, shape) => EditIsRouted(c, named, shape, true);
    case UpdateSettings(named, shape, withKey) =>
      EditIsRouted(c, named, shape, false);
      var routed := Edited(c, named, shape, false);
      EditedIsThere(c, named, shape, false);
      KeyIsPlanned(routed, named, Some(newRef));
      assert Routed(c.providers, routed.providers, if named.Some? then named.value else c.defaultProvider, shape);
    case ChangeModels(id, shape) =>
      if Find(c.providers, id).Some? {
        var i := Find(c.providers, id).value;
        assert c.providers[i] in c.providers;
        ShapeIsRouted(c, i, shape);
      }
    case CopyProvider(source, id) => CopyIsPlanned(c, source, id, newRef);
    case DeleteProvider(id, fallback) => DeletionIsPlanned(c, id, fallback, newRef);
    case SetCredential(named) => KeyIsPlanned(c, named, Some(newRef));
    case ClearCredential(named) => KeyIsPlanned(c, named, None);
    case _ =>
  }

  lemma EditedIsThere(c: Config, named: Option<ProviderId>, shape: nat, activate: bool)
    requires c.providers != []
    ensures Edited(c, named, shape, activate).providers != []
  {
    hide Find;
  }

  lemma CopyIsPlanned(c: Config, source: ProviderId, id: ProviderId, newRef: Ref)
    requires Sound(c)
    ensures Planned(c, CopyProvider(source, id), newRef, Prepare(c, CopyProvider(source, id), newRef))
  {
    var from, to := Find(c.providers, source), Find(c.providers, id);
    hide Find;
    if from.Some? {
      assert c.providers[from.value] in c.providers;
      forall p | p in c.providers && p.id == source ensures p == c.providers[from.value] {
        var k :| 0 <= k < |c.providers| && c.providers[k] == p;
      }
    }
    if to.Some? {
      assert c.providers[to.value] in c.providers;
    }
  }
}
