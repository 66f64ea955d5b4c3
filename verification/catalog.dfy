/** The provider/model catalog the agent service advertises, resolution of a
    `/model` argument against it, the validated switch of the active pair
    (`switch_model`), and the `/models` listing (`show_models`). */
module Catalog {
  import opened Outcomes
  import opened Text

  /** Per-million-token prices, kept as the text the listing prints. */
  datatype Cost = Cost(input: string, output: string)

  /** One entry of a provider's model dictionary; `cost` is `None` when the
      model has no (truthy) cost attribute. */
  datatype ModelEntry = ModelEntry(id: string, cost: Option<Cost>)

  /** A provider; `models` lists the dictionary's entries in its order. */
  datatype Provider = Provider(id: string, name: string, models: seq<ModelEntry>)

  /** The `app.providers()` response: providers in catalog order and the
      per-provider default model ids. */
  datatype Providers = Providers(providers: seq<Provider>, defaults: map<string, string>)

  /** The active provider/model pair. */
  datatype Selection = Selection(provider: string, model: string)

  /** Provider `p` offers a model with id `m`. */
  predicate HasModel(p: Provider, m: string) {
    exists i :: 0 <= i < |p.models| && p.models[i].id == m
  }

  /** The model ids of `p`, in dictionary order. */
  function ModelIds(p: Provider): (r: seq<string>)
    ensures |r| == |p.models|
    ensures forall i :: 0 <= i < |r| ==> r[i] == p.models[i].id
  {
    seq(|p.models|, i requires 0 <= i < |p.models| => p.models[i].id)
  }

  /** Index of the first provider, in catalog order, offering model `m`. */
  function FindProvider(ps: seq<Provider>, m: string): (r: Option<nat>)
    ensures r.Some? ==> r.value < |ps| && HasModel(ps[r.value], m)
    ensures r.Some? ==> forall j :: 0 <= j < r.value ==> !HasModel(ps[j], m)
    ensures r.None? ==> forall j :: 0 <= j < |ps| ==> !HasModel(ps[j], m)
  {
    if |ps| == 0 then None
    else if HasModel(ps[0], m) then Some(0)
    else
      match FindProvider(ps[1..], m)
      case None => None
      case Some(k) => Some(k + 1)
  }

  /** `{p.id: p for p in providers}[id]`: a dictionary built from the
      catalog keeps the LAST provider with a given id. */
  function Lookup(ps: seq<Provider>, id: string): (r: Option<nat>)
    ensures r.Some? ==> r.value < |ps| && ps[r.value].id == id
    ensures r.Some? ==> forall j :: r.value < j < |ps| ==> ps[j].id != id
    ensures r.None? ==> forall j :: 0 <= j < |ps| ==> ps[j].id != id
  {
    if |ps| == 0 then None
    else if ps[|ps| - 1].id == id then Some(|ps| - 1)
    else Lookup(ps[..|ps| - 1], id)
  }

  /** The keys of that dictionary: each provider id once; their order is
      stated by `KnownIdsInFirstOccurrenceOrder`. */
  function KnownIds(ps: seq<Provider>): (r: seq<string>)
    ensures forall id :: id in r <==> exists j :: 0 <= j < |ps| && ps[j].id == id
    ensures forall i, j :: 0 <= i < j < |r| ==> r[i] != r[j]
  {
    if |ps| == 0 then []
    else
      var front := ps[..|ps| - 1];
      var d := KnownIds(front);
      assert forall j :: 0 <= j < |front| ==> front[j] == ps[j];
      if ps[|ps| - 1].id in d then d else d + [ps[|ps| - 1].id]
  }

  /** The ids are listed in the order of their first occurrence, as a
      dictionary's keys are: an id listed before another occurs in the
      catalog before every occurrence of the other. */
  lemma {:induction false} KnownIdsInFirstOccurrenceOrder(ps: seq<Provider>, i: nat, j: nat, l: nat)
    requires i < j < |KnownIds(ps)| && l < |ps| && ps[l].id == KnownIds(ps)[j]
    ensures exists k :: 0 <= k < l && ps[k].id == KnownIds(ps)[i]
    decreases |ps|
  {
    var r := KnownIds(ps);
    var front := ps[..|ps| - 1];
    var d := KnownIds(front);
    var x := ps[|ps| - 1].id;
    assert forall m :: 0 <= m < |front| ==> front[m] == ps[m];
    assert r == if x in d then d else d + [x];
    assert r[i] == d[i] && r[i] in d;
    var k0 :| 0 <= k0 < |front| && front[k0].id == r[i];
    if l < |front| {
      assert front[l].id == r[j] && r[j] in d;
      assert j < |d|;
      KnownIdsInFirstOccurrenceOrder(front, i, j, l);
      var k :| 0 <= k < l && front[k].id == d[i];
      assert ps[k].id == r[i];
    } else {
      assert ps[k0].id == r[i];
    }
  }

  /** The pair `sel` passes both checks of a switch against catalog `ps`:
      some provider has id `sel.provider`, and the last such provider (the
      one the dictionary keeps) offers `sel.model`. */
  predicate Offered(ps: seq<Provider>, sel: Selection) {
    exists k :: 0 <= k < |ps| && ps[k].id == sel.provider && HasModel(ps[k], sel.model)
      && (forall j :: k < j < |ps| ==> ps[j].id != sel.provider)
  }

  /** Provider `ps[k]` is the first in catalog order offering `m`. */
  predicate FirstOffering(ps: seq<Provider>, k: int, m: string) {
    0 <= k < |ps| && HasModel(ps[k], m) && forall j :: 0 <= j < k ==> !HasModel(ps[j], m)
  }

  /** Resolves a `/model` argument. With a `/` the spec is split at its
      first `/` and the catalog is not consulted; a bare id is looked up
      across providers in catalog order. `None` means the bare id is offered
      by no provider (or, as the source's truthiness test has it, the first
      provider offering it has the empty id). */
  function Resolve(spec: string, ps: seq<Provider>): (r: Option<Selection>)
    ensures '/' in spec ==>
      (r.Some? && spec == r.value.provider + "/" + r.value.model && '/' !in r.value.provider)
    ensures '/' !in spec && r.Some? ==> r.value.model == spec
  {
    if '/' in spec then
      var halves := SplitFirst(spec, '/');
      Some(Selection(halves.0, halves.1))
    else
      match FindProvider(ps, spec)
      case None => None
      case Some(k) => if ps[k].id != "" then Some(Selection(ps[k].id, spec)) else None
  }

  /** A compound spec resolves the same way whatever the catalog holds. */
  lemma ResolveCompoundIgnoresCatalog(spec: string, ps: seq<Provider>, qs: seq<Provider>)
    requires '/' in spec
    ensures Resolve(spec, ps) == Resolve(spec, qs)
  {
  }

  /** A bare id resolves to provider `p` exactly when `p` is the non-empty
      id of the first provider in catalog order offering that model. */
  lemma ResolveBareId(spec: string, ps: seq<Provider>, p: string)
    requires '/' !in spec
    ensures Resolve(spec, ps) == Some(Selection(p, spec))
        <==> p != "" && exists k :: FirstOffering(ps, k, spec) && ps[k].id == p
  {
    var f := FindProvider(ps, spec);
    if exists k :: FirstOffering(ps, k, spec) && ps[k].id == p {
      var k :| FirstOffering(ps, k, spec) && ps[k].id == p;
      assert f.Some?;
      assert f.value == k;
    }
  }

  /** A bare id that no provider offers does not resolve. */
  lemma ResolveUnknownBareId(spec: string, ps: seq<Provider>)
    requires '/' !in spec
    requires forall j :: 0 <= j < |ps| ==> !HasModel(ps[j], spec)
    ensures Resolve(spec, ps).None?
  {
  }

  /** What a switch reports. */
  datatype SwitchOutcome =
    | CatalogUnavailable(message: string)
    | NotInAnyProvider(spec: string)
    | UnknownProvider(provider: string, available: seq<string>)
    | UnknownModel(provider: string, model: string, available: seq<string>)
    | Switched(selection: Selection)

  /** `switch_model`: fetch the catalog, resolve `spec`, check the provider
      and then the model, and only if every step succeeds replace BOTH
      halves of the active pair; otherwise `current` is returned unchanged. */
  function Switch(current: Selection, spec: string, fetched: Result<Providers>): (r: (Selection, SwitchOutcome))
    ensures !r.1.Switched? ==> r.0 == current
    ensures r.1.Switched? ==> r.0 == r.1.selection
    ensures r.1.Switched? <==>
      fetched.Ok? && Resolve(spec, fetched.value.providers).Some?
      && Offered(fetched.value.providers, Resolve(spec, fetched.value.providers).value)
    ensures r.1.Switched? ==> r.0 == Resolve(spec, fetched.value.providers).value
    ensures r.1.CatalogUnavailable? <==> fetched.Err?
    ensures fetched.Err? ==> r.1 == CatalogUnavailable(fetched.message)
    ensures r.1.NotInAnyProvider? <==> fetched.Ok? && Resolve(spec, fetched.value.providers).None?
    ensures r.1.NotInAnyProvider? ==> r.1.spec == spec
    ensures r.1.UnknownProvider? <==>
      fetched.Ok? && Resolve(spec, fetched.value.providers).Some?
      && Resolve(spec, fetched.value.providers).value.provider !in KnownIds(fetched.value.providers)
    ensures r.1.UnknownProvider? ==>
      r.1.provider == Resolve(spec, fetched.value.providers).value.provider
      && r.1.available == KnownIds(fetched.value.providers)
    ensures r.1.UnknownModel? <==>
      fetched.Ok? && Resolve(spec, fetched.value.providers).Some?
      && Lookup(fetched.value.providers, Resolve(spec, fetched.value.providers).value.provider).Some?
      && !Offered(fetched.value.providers, Resolve(spec, fetched.value.providers).value)
    ensures r.1.UnknownModel? ==>
      fetched.Ok? && Resolve(spec, fetched.value.providers) == Some(Selection(r.1.provider, r.1.model))
      && Lookup(fetched.value.providers, r.1.provider).Some?
      && r.1.available == Take(ModelIds(fetched.value.providers[Lookup(fetched.value.providers, r.1.provider).value]), 10)
  {
    match fetched
    case Err(e) => (current, CatalogUnavailable(e))
    case Ok(resp) =>
      var ps := resp.providers;
      match Resolve(spec, ps)
      case None => (current, NotInAnyProvider(spec))
      case Some(want) =>
        match Lookup(ps, want.provider)
        case None => (current, UnknownProvider(want.provider, KnownIds(ps)))
        case Some(k) =>
          if HasModel(ps[k], want.model) then (want, Switched(want))
          else (current, UnknownModel(want.provider, want.model, Take(ModelIds(ps[k]), 10)))
  }

  /** The switch is atomic: the new pair is either the old pair exactly or
      the resolved pair, and never mixes the two. */
  lemma SwitchIsAtomic(current: Selection, spec: string, fetched: Result<Providers>)
    ensures var next := Switch(current, spec, fetched).0;
      next == current
      || (fetched.Ok? && Resolve(spec, fetched.value.providers) == Some(next)
          && Offered(fetched.value.providers, next))
  {
  }

  /** The pair used at startup. */
  const DefaultSelection := Selection("opencode", "kimi-k2.5-free")

  /** What the startup check of the default pair reports. */
  datatype DefaultCheck = Verified | NotOffered | Unverifiable(message: string)

  /** The startup check in `ensure_opencode`: the default pair is used
      whatever the catalog says; the check only decides whether the client
      confirms it, warns that it is not offered, or warns that it could not
      be checked. */
  function CheckDefault(fetched: Result<Providers>): (r: (Selection, DefaultCheck))
    ensures r.0 == DefaultSelection
    ensures r.1 == Verified <==> fetched.Ok? && Offered(fetched.value.providers, DefaultSelection)
    ensures r.1.Unverifiable? <==> fetched.Err?
    ensures r.1.Unverifiable? ==> r.1.message == fetched.message
  {
    match fetched
    case Err(e) => (DefaultSelection, Unverifiable(e))
    case Ok(resp) =>
      var ps := resp.providers;
      match Lookup(ps, DefaultSelection.provider)
      case Some(k) =>
        if HasModel(ps[k], DefaultSelection.model) then (DefaultSelection, Verified) else (DefaultSelection, NotOffered)
      case None => (DefaultSelection, NotOffered)
  }

  /** A line of the `/models` listing. */
  datatype ListingLine =
    | ProviderHeader(name: string, id: string, default: Option<string>)
    | NoModels
    | ModelRow(provider: string, model: string, cost: Option<Cost>, active: bool)
    | Spacer

  datatype Listing = ListingFailed(message: string) | ListingLines(lines: seq<ListingLine>)

  /** The rows for models `ms` of provider `pid`; a row is marked active
      when it names the active pair. */
  function ModelRows(pid: string, ms: seq<ModelEntry>, active: Selection): (r: seq<ListingLine>)
    ensures |r| == |ms|
    ensures forall i :: 0 <= i < |r| ==> r[i].ModelRow? && r[i].provider == pid && r[i].model == ms[i].id
    ensures forall i :: 0 <= i < |r| ==> r[i].cost == ms[i].cost
    ensures forall i :: 0 <= i < |r| ==> (r[i].active <==> Selection(pid, ms[i].id) == active)
  {
    if |ms| == 0 then []
    else
      [ModelRow(pid, ms[0].id, ms[0].cost, pid == active.provider && ms[0].id == active.model)]
      + ModelRows(pid, ms[1..], active)
  }

  /** The default model a provider's header names: `defaults.get(p.id)`
      when it is truthy. */
  function DefaultFor(id: string, defaults: map<string, string>): (r: Option<string>)
    ensures r.Some? <==> id in defaults && defaults[id] != ""
    ensures r.Some? ==> r.value == defaults[id]
  {
    if id in defaults && defaults[id] != "" then Some(defaults[id]) else None
  }

  /** The row `show_models` prints for model `m` of provider `pid`. */
  function RowFor(pid: string, m: ModelEntry, active: Selection): ListingLine {
    ModelRow(pid, m.id, m.cost, Selection(pid, m.id) == active)
  }

  /** A provider's block: its header, then "(no models)" alone, or one row
      per model, in the provider's order, followed by a blank line. */
  function ProviderBlock(p: Provider, defaults: map<string, string>, active: Selection): (r: seq<ListingLine>)
    ensures |r| == if |p.models| == 0 then 2 else |p.models| + 2
    ensures r[0] == ProviderHeader(p.name, p.id, DefaultFor(p.id, defaults))
    ensures r[|r| - 1] == if |p.models| == 0 then NoModels else Spacer
    ensures forall i :: 0 <= i < |p.models| ==> r[i + 1] == RowFor(p.id, p.models[i], active)
    ensures forall i :: 0 <= i < |r| && r[i].ModelRow? ==>
      r[i].provider == p.id && HasModel(p, r[i].model)
      && (r[i].active <==> Selection(r[i].provider, r[i].model) == active)
  {
    var rows := ModelRows(p.id, p.models, active);
    var tail := if |p.models| == 0 then [NoModels] else rows + [Spacer];
    var r := [ProviderHeader(p.name, p.id, DefaultFor(p.id, defaults))] + tail;
    assert forall i :: 1 <= i < |r| ==> r[i] == tail[i - 1];
    assert forall i :: 0 <= i < |rows| ==> HasModel(p, rows[i].model) by {
      forall i | 0 <= i < |rows| ensures HasModel(p, rows[i].model) {
        assert p.models[i].id == rows[i].model;
      }
    }
    r
  }

  /** The listing lines for all providers, in catalog order. */
  function ListingFor(ps: seq<Provider>, defaults: map<string, string>, active: Selection): seq<ListingLine> {
    if |ps| == 0 then [] else ProviderBlock(ps[0], defaults, active) + ListingFor(ps[1..], defaults, active)
  }

  /** Every model row in the listing names a model that some provider with
      that id offers, and is marked active exactly when it names the active
      pair. */
  lemma {:induction false} ListingSound(ps: seq<Provider>, defaults: map<string, string>, active: Selection, i: nat)
    requires i < |ListingFor(ps, defaults, active)| && ListingFor(ps, defaults, active)[i].ModelRow?
    ensures var row := ListingFor(ps, defaults, active)[i];
      (row.active <==> Selection(row.provider, row.model) == active)
      && exists j :: 0 <= j < |ps| && ps[j].id == row.provider && HasModel(ps[j], row.model)
    decreases |ps|
  {
    var head := ProviderBlock(ps[0], defaults, active);
    var tail := ListingFor(ps[1..], defaults, active);
    var r := head + tail;
    assert ListingFor(ps, defaults, active) == r;
    if i < |head| {
      assert r[i] == head[i];
    } else {
      assert r[i] == tail[i - |head|];
      ListingSound(ps[1..], defaults, active, i - |head|);
      var j :| 0 <= j < |ps[1..]| && ps[1..][j].id == tail[i - |head|].provider && HasModel(ps[1..][j], tail[i - |head|].model);
      assert ps[j + 1] == ps[1..][j];
    }
  }

  /** The listing of a catalog is the blocks of its providers one after
      another: listing two catalogs in turn lists their concatenation. */
  lemma {:induction false} ListingConcat(a: seq<Provider>, b: seq<Provider>, defaults: map<string, string>, active: Selection)
    ensures ListingFor(a + b, defaults, active) == ListingFor(a, defaults, active) + ListingFor(b, defaults, active)
    decreases |a|
  {
    if |a| == 0 {
      assert a + b == b;
    } else {
      assert (a + b)[0] == a[0];
      assert (a + b)[1..] == a[1..] + b;
      ListingConcat(a[1..], b, defaults, active);
    }
  }

  /** A catalog of one provider lists exactly that provider's block. */
  lemma ListingOfOne(p: Provider, defaults: map<string, string>, active: Selection)
    ensures ListingFor([p], defaults, active) == ProviderBlock(p, defaults, active)
  {
    assert [p][1..] == [];
  }

  /** Every model of every provider gets its row, with its cost and its
      active mark. */
  lemma {:induction false} ListingHasEveryModel(ps: seq<Provider>, defaults: map<string, string>, active: Selection, j: nat, m: nat)
    requires j < |ps| && m < |ps[j].models|
    ensures RowFor(ps[j].id, ps[j].models[m], active) in ListingFor(ps, defaults, active)
    decreases j
  {
    var head := ProviderBlock(ps[0], defaults, active);
    var tail := ListingFor(ps[1..], defaults, active);
    assert ListingFor(ps, defaults, active) == head + tail;
    if j == 0 {
      assert head[m + 1] == RowFor(ps[0].id, ps[0].models[m], active);
    } else {
      assert ps[1..][j - 1] == ps[j];
      ListingHasEveryModel(ps[1..], defaults, active, j - 1, m);
    }
  }

  /** `show_models`: the listing, or the catalog error. */
  function ListingOf(fetched: Result<Providers>, active: Selection): (r: Listing)
    ensures fetched.Err? <==> r.ListingFailed?
    ensures fetched.Err? ==> r.message == fetched.message
    ensures fetched.Ok? ==> r.lines == ListingFor(fetched.value.providers, fetched.value.defaults, active)
  {
    match fetched
    case Err(e) => ListingFailed(e)
    case Ok(resp) => ListingLines(ListingFor(resp.providers, resp.defaults, active))
  }
}
