/**
 Discovery, pairing and planning of migrations: `crates/core/src/migration/plan.rs`.

 A script's name and metadata are parsed before this module sees it, so an asset carries the
 outcome of that parse. Checksums are opaque values.
 */
module MigrationCatalog {
  import opened Base

  datatype MigrationId = MigrationId(version: nat, name: string)

  datatype Kind = Up | Down

  datatype Mode = Transactional | NonTransactional

  type Checksum = seq<byte>

  datatype Script = Script(id: MigrationId, kind: Kind, mode: Mode, contents: string, checksum: Checksum)

  datatype Asset = Asset(path: string, parsed: Result<Script, MigrationError>)

  datatype Pair = Pair(id: MigrationId, up: Script, down: Script)

  datatype Applied = Applied(id: MigrationId, upChecksum: Checksum, downChecksum: Checksum,
                             upMode: Mode, downMode: Mode, appliedAt: nat)

  datatype DriftReason = UpChecksum | DownChecksum | UpMode | DownMode

  datatype MigrationError =
    | InvalidAsset(reason: string)
    | ConflictingVersion(version: nat, existingName: string, conflictingName: string)
    | DuplicateScript(id: MigrationId, kind: Kind, first: string, second: string)
    | MissingScript(id: MigrationId, missing: Kind)
    | PairMismatch(up: Script, down: Script)
    | OrderMismatch(expected: MigrationId, actual: MigrationId)
    | NotAfter(previous: MigrationId, actual: MigrationId)
    | AppliedMissing(id: MigrationId)
    | DriftDetected(id: MigrationId, drift: DriftReason)

  // ----- Identifier order ---------------------------------------------------------------

  predicate LexLess(a: string, b: string) {
    if b == [] then false
    else if a == [] then true
    else a[0] < b[0] || (a[0] == b[0] && LexLess(a[1..], b[1..]))
  }

  predicate IdLess(a: MigrationId, b: MigrationId) {
    a.version < b.version || (a.version == b.version && LexLess(a.name, b.name))
  }

  lemma {:induction false} LexTotal(a: string, b: string)
    ensures LexLess(a, b) || LexLess(b, a) || a == b
    ensures !(LexLess(a, b) && LexLess(b, a))
    ensures !LexLess(a, a)
    decreases |a|
  {
    if a != [] {
      LexTotal(a[1..], a[1..]);
      if b != [] {
        LexTotal(a[1..], b[1..]);
        assert a == [a[0]] + a[1..] && b == [b[0]] + b[1..];
      }
    }
  }

  lemma {:induction false} LexTransitive(a: string, b: string, c: string)
    requires LexLess(a, b) && LexLess(b, c)
    ensures LexLess(a, c)
  {
    if a != [] && a[0] == b[0] && b[0] == c[0] {
      LexTransitive(a[1..], b[1..], c[1..]);
    }
  }

  lemma IdTotal(a: MigrationId, b: MigrationId)
    ensures IdLess(a, b) || IdLess(b, a) || a == b
    ensures !(IdLess(a, b) && IdLess(b, a)) && !IdLess(a, a)
  {
    LexTotal(a.name, b.name);
  }

  lemma IdTransitive(a: MigrationId, b: MigrationId, c: MigrationId)
    requires IdLess(a, b) && IdLess(b, c)
    ensures IdLess(a, c)
  {
    if a.version == c.version {
      LexTransitive(a.name, b.name, c.name);
    }
  }

  lemma {:induction false} LeastId(ids: set<MigrationId>) returns (least: MigrationId)
    requires ids != {}
    ensures least in ids && forall x :: x in ids && x != least ==> IdLess(least, x)
    decreases |ids|
  {
    var some :| some in ids;
    var rest := ids - {some};
    assert ids == rest + {some};
    if rest == {} {
      least := some;
    } else {
      var m := LeastId(rest);
      IdTotal(some, m);
      least := if IdLess(some, m) then some else m;
      forall x | x in ids && x != least ensures IdLess(least, x) {
        if least == some && x != m {
          IdTransitive(some, m, x);
        }
      }
    }
  }

  // ----- What a catalog is, independent of the order of its assets ------------------------

  /** Every asset parses, no version carries two names, no script is given twice, and every
      script has its counterpart. */
  ghost predicate Buildable(assets: seq<Asset>) {
    && (forall i :: 0 <= i < |assets| ==> assets[i].parsed.Ok?)
    && Consistent(assets)
    && (forall i :: 0 <= i < |assets| ==> HasCounterpart(assets, i))
  }

  ghost predicate Consistent(assets: seq<Asset>) {
    && (forall i, j {:trigger SameNames(assets[i], assets[j])} ::
          0 <= i < |assets| && 0 <= j < |assets| ==> SameNames(assets[i], assets[j]))
    && (forall i, j {:trigger SameSlot(assets[i], assets[j])} ::
          0 <= i < j < |assets| ==> !SameSlot(assets[i], assets[j]))
  }

  ghost predicate HasCounterpart(assets: seq<Asset>, i: nat)
    requires i < |assets|
  {
    exists j :: 0 <= j < |assets| && Counterparts(assets[i], assets[j])
  }

  ghost predicate SameNames(a: Asset, b: Asset) {
    (a.parsed.Ok? && b.parsed.Ok? && a.parsed.value.id.version == b.parsed.value.id.version)
    ==> a.parsed.value.id == b.parsed.value.id
  }

  ghost predicate SameSlot(a: Asset, b: Asset) {
    a.parsed.Ok? && b.parsed.Ok? && a.parsed.value.id == b.parsed.value.id && a.parsed.value.kind == b.parsed.value.kind
  }

  ghost predicate Counterparts(a: Asset, b: Asset) {
    a.parsed.Ok? && b.parsed.Ok? && a.parsed.value.id == b.parsed.value.id && a.parsed.value.kind != b.parsed.value.kind
  }

  ghost predicate ByVersion(pairs: seq<Pair>) {
    forall i, j :: 0 <= i < j < |pairs| ==> pairs[i].id.version < pairs[j].id.version
  }

  ghost predicate WellPaired(p: Pair) {
    p.up.kind == Up && p.down.kind == Down && p.up.id == p.id && p.down.id == p.id
  }

  predicate HasScript(p: Pair, s: Script) {
    p.up == s || p.down == s
  }

  /** `pairs` holds exactly the scripts of `assets`, paired and in strictly increasing version order. */
  ghost predicate IsCatalogOf(pairs: seq<Pair>, assets: seq<Asset>) {
    && ByVersion(pairs)
    && (forall i :: 0 <= i < |pairs| ==> WellPaired(pairs[i]))
    && (forall a :: a in assets ==> Covers(pairs, a))
    && (forall i :: 0 <= i < |pairs| ==> Sourced(assets, pairs, i))
  }

  ghost predicate Covers(pairs: seq<Pair>, a: Asset) {
    a.parsed.Ok? ==> exists i :: 0 <= i < |pairs| && HasScript(pairs[i], a.parsed.value)
  }

  ghost predicate Sourced(assets: seq<Asset>, pairs: seq<Pair>, i: nat)
    requires i < |pairs|
  {
    Provides(assets, pairs[i].up) && Provides(assets, pairs[i].down)
  }

  ghost predicate Provides(assets: seq<Asset>, s: Script) {
    exists a :: a in assets && a.parsed == Ok(s)
  }

  // ----- Order independence ---------------------------------------------------------------

  /** Buildable, said of the bag of assets. */
  ghost predicate BuildableBag(bag: multiset<Asset>) {
    && (forall a :: a in bag ==> a.parsed.Ok? && bag[a] == 1)
    && (forall a, b {:trigger SameNames(a, b)} :: a in bag && b in bag ==> SameNames(a, b))
    && (forall a, b {:trigger SameSlot(a, b)} :: a in bag && b in bag && a != b ==> !SameSlot(a, b))
    && (forall a :: a in bag ==> HasCounterpartIn(bag, a))
  }

  ghost predicate HasCounterpartIn(bag: multiset<Asset>, a: Asset) {
    exists b :: b in bag && Counterparts(a, b)
  }

  lemma OccurrenceSplit<T>(s: seq<T>, i: nat, x: T)
    requires i < |s|
    ensures multiset(s)[x] == multiset(s[..i])[x] + multiset(s[i..])[x]
  {
    assert s == s[..i] + s[i..];
  }

  lemma OneOccurrence<T>(s: seq<T>, i: nat, j: nat)
    requires i < j < |s| && s[i] == s[j]
    ensures multiset(s)[s[i]] >= 2
  {
    OccurrenceSplit(s, j, s[i]);
    assert s[..j][i] == s[i] && s[j..][0] == s[i];
    assert s[i] in multiset(s[..j]) && s[i] in multiset(s[j..]);
  }

  lemma SingleOccurrence<T>(s: seq<T>, i: nat)
    requires i < |s|
    requires forall j :: 0 <= j < |s| && j != i ==> s[j] != s[i]
    ensures multiset(s)[s[i]] == 1
  {
    OccurrenceSplit(s, i, s[i]);
    assert s[i..] == [s[i]] + s[i + 1..];
    assert s[i] !in s[..i] && s[i] !in s[i + 1..];
  }

  lemma AloneInItsSlot(assets: seq<Asset>, i: nat)
    requires Buildable(assets) && i < |assets|
    ensures multiset(assets)[assets[i]] == 1
  {
    forall j | 0 <= j < |assets| && j != i ensures assets[j] != assets[i] {
      assert assets[i].parsed.Ok? && SameSlot(assets[i], assets[i]);
      assert if i < j then !SameSlot(assets[i], assets[j]) else !SameSlot(assets[j], assets[i]);
    }
    SingleOccurrence(assets, i);
  }

  lemma NoClashInBag(assets: seq<Asset>, a: Asset, b: Asset)
    requires Consistent(assets) && a in assets && b in assets
    ensures SameNames(a, b) && (a != b ==> !SameSlot(a, b))
  {
    var i :| 0 <= i < |assets| && assets[i] == a;
    var j :| 0 <= j < |assets| && assets[j] == b;
    assert SameNames(assets[i], assets[j]);
    assert i < j ==> !SameSlot(assets[i], assets[j]);
    assert j < i ==> !SameSlot(assets[j], assets[i]);
  }

  lemma CounterpartInBag(assets: seq<Asset>, i: nat)
    requires i < |assets| && HasCounterpart(assets, i)
    ensures HasCounterpartIn(multiset(assets), assets[i])
  {
    var j :| 0 <= j < |assets| && Counterparts(assets[i], assets[j]);
    assert assets[j] in multiset(assets);
  }

  lemma BuildableIsPaired(assets: seq<Asset>, a: Asset)
    requires Buildable(assets) && a in multiset(assets)
    ensures var bag := multiset(assets); a.parsed.Ok? && bag[a] == 1 && HasCounterpartIn(bag, a)
  {
    var i :| 0 <= i < |assets| && assets[i] == a;
    AloneInItsSlot(assets, i);
    assert HasCounterpart(assets, i);
    CounterpartInBag(assets, i);
  }

  lemma AllPaired(assets: seq<Asset>)
    requires Buildable(assets)
    ensures forall a :: a in multiset(assets) ==> a.parsed.Ok? && multiset(assets)[a] == 1
    ensures forall a :: a in multiset(assets) ==> HasCounterpartIn(multiset(assets), a)
  {
    forall a | a in multiset(assets)
      ensures a.parsed.Ok? && multiset(assets)[a] == 1 && HasCounterpartIn(multiset(assets), a)
    {
      BuildableIsPaired(assets, a);
    }
  }

  lemma NoneClash(assets: seq<Asset>)
    requires Buildable(assets)
    ensures forall a, b {:trigger SameNames(a, b)} :: a in multiset(assets) && b in multiset(assets) ==> SameNames(a, b)
    ensures forall a, b {:trigger SameSlot(a, b)} ::
              a in multiset(assets) && b in multiset(assets) && a != b ==> !SameSlot(a, b)
  {
    forall a, b | a in multiset(assets) && b in multiset(assets)
      ensures SameNames(a, b) && (a != b ==> !SameSlot(a, b))
    {
      NoClashInBag(assets, a, b);
    }
  }

  lemma BuildableIsBuildableBag(assets: seq<Asset>)
    requires Buildable(assets)
    ensures BuildableBag(multiset(assets))
  {
    AllPaired(assets);
    NoneClash(assets);
  }

  lemma BuildableBagIsBuildable(assets: seq<Asset>)
    requires BuildableBag(multiset(assets))
    ensures Buildable(assets)
  {
    var bag := multiset(assets);
    assert forall i :: 0 <= i < |assets| ==> assets[i] in bag;
    forall i | 0 <= i < |assets| ensures HasCounterpart(assets, i) {
      assert HasCounterpartIn(bag, assets[i]);
      var b :| b in bag && Counterparts(assets[i], b);
      var j :| 0 <= j < |assets| && assets[j] == b;
    }
    forall i, j | 0 <= i < j < |assets| ensures !SameSlot(assets[i], assets[j]) {
      if assets[i] == assets[j] {
        OneOccurrence(assets, i, j);
      }
    }
  }

  lemma CatalogHeadIsDetermined(p: seq<Pair>, q: seq<Pair>, assets: seq<Asset>, k: nat)
    requires IsCatalogOf(p, assets) && IsCatalogOf(q, assets)
    requires k < |p| && k <= |q| && p[..k] == q[..k]
    ensures k < |q| && p[k].id.version >= q[k].id.version
  {
    // p[k]'s up script appears in q, and not among the first k entries.
    assert Sourced(assets, p, k);
    var a :| a in assets && a.parsed == Ok(p[k].up);
    assert Covers(q, a);
    var m :| 0 <= m < |q| && HasScript(q[m], p[k].up);
    assert forall i :: 0 <= i < k ==> q[i] == q[..k][i] && p[i] == p[..k][i];
  }

  lemma SlotDetermined(s: Script, t: Script, assets: seq<Asset>)
    requires Consistent(assets) && Provides(assets, s) && Provides(assets, t)
    requires s.id.version == t.id.version && s.kind == t.kind
    ensures s == t
  {
    var a :| a in assets && a.parsed == Ok(s);
    var b :| b in assets && b.parsed == Ok(t);
    var i :| 0 <= i < |assets| && assets[i] == a;
    var j :| 0 <= j < |assets| && assets[j] == b;
    assert SameNames(assets[i], assets[j]);
    assert i < j ==> !SameSlot(assets[i], assets[j]);
    assert j < i ==> !SameSlot(assets[j], assets[i]);
  }

  lemma {:induction false} PrefixesAgree(p: seq<Pair>, q: seq<Pair>, assets: seq<Asset>, k: nat)
    requires Consistent(assets) && IsCatalogOf(p, assets) && IsCatalogOf(q, assets)
    requires k <= |p|
    ensures k <= |q| && p[..k] == q[..k]
  {
    if k > 0 {
      PrefixesAgree(p, q, assets, k - 1);
      CatalogHeadIsDetermined(p, q, assets, k - 1);
      CatalogHeadIsDetermined(q, p, assets, k - 1);
      assert Sourced(assets, p, k - 1) && Sourced(assets, q, k - 1);
      SlotDetermined(p[k - 1].up, q[k - 1].up, assets);
      SlotDetermined(p[k - 1].down, q[k - 1].down, assets);
      assert p[..k] == p[..k - 1] + [p[k - 1]] && q[..k] == q[..k - 1] + [q[k - 1]];
    }
  }

  /** A set of assets has at most one catalog. */
  lemma CatalogIsUnique(p: seq<Pair>, q: seq<Pair>, assets: seq<Asset>)
    requires Buildable(assets) && IsCatalogOf(p, assets) && IsCatalogOf(q, assets)
    ensures p == q
  {
    PrefixesAgree(p, q, assets, |p|);
    PrefixesAgree(q, p, assets, |q|);
    assert p[..|p|] == p && q[..|p|] == q;
  }

  /** Reordering the assets changes neither whether a catalog can be built nor which one it is. */
  lemma BuildingIsOrderIndependent(assets: seq<Asset>, shuffled: seq<Asset>)
    requires multiset(assets) == multiset(shuffled)
    ensures Buildable(assets) <==> Buildable(shuffled)
    ensures forall p, q :: Buildable(assets) && IsCatalogOf(p, assets) && IsCatalogOf(q, shuffled) ==> p == q
  {
    if Buildable(assets) {
      BuildableIsBuildableBag(assets);
      BuildableBagIsBuildable(shuffled);
    }
    if Buildable(shuffled) {
      BuildableIsBuildableBag(shuffled);
      BuildableBagIsBuildable(assets);
    }
    forall p, q | Buildable(assets) && IsCatalogOf(p, assets) && IsCatalogOf(q, shuffled) ensures p == q {
      SameCatalogs(assets, shuffled, q);
      CatalogIsUnique(p, q, assets);
    }
  }

  lemma SameCatalogs(assets: seq<Asset>, shuffled: seq<Asset>, q: seq<Pair>)
    requires multiset(assets) == multiset(shuffled) && IsCatalogOf(q, shuffled)
    ensures IsCatalogOf(q, assets)
  {
    forall a | a in assets || a in shuffled ensures a in assets && a in shuffled {
      assert a in multiset(assets) || a in multiset(shuffled);
    }
    forall i | 0 <= i < |q| ensures Sourced(assets, q, i) {
      assert Sourced(shuffled, q, i);
    }
  }

  // ----- from_assets --------------------------------------------------------------------------

  datatype PairBuilder = PairBuilder(up: Option<(Script, string)>, down: Option<(Script, string)>) {
    function Slot(kind: Kind): Option<(Script, string)> {
      if kind == Up then up else down
    }

    function Insert(id: MigrationId, script: Script, path: string): Result<PairBuilder, MigrationError> {
      if Slot(script.kind).Some? then Err(DuplicateScript(id, script.kind, Slot(script.kind).value.1, path))
      else if script.kind == Up then Ok(PairBuilder(Some((script, path)), down))
      else Ok(PairBuilder(up, Some((script, path))))
    }

    function Finish(id: MigrationId): Result<Pair, MigrationError> {
      if up.None? then Err(MissingScript(id, Up))
      else if down.None? then Err(MissingScript(id, Down))
      else NewPair(up.value.0, down.value.0)
    }
  }

  function NewPair(up: Script, down: Script): Result<Pair, MigrationError> {
    if up.kind != Up || down.kind != Down || up.id != down.id then Err(PairMismatch(up, down))
    else Ok(Pair(up.id, up, down))
  }

  ghost predicate Filed(assets: seq<Asset>, builders: map<MigrationId, PairBuilder>) {
    && (forall i :: 0 <= i < |assets| ==> assets[i].parsed.Ok?)
    && (forall i :: 0 <= i < |assets| ==> Holds(builders, assets[i]))
    && (forall id, kind :: id in builders && builders[id].Slot(kind).Some?
          ==> exists i :: 0 <= i < |assets| && FiledAt(assets[i], id, kind, builders[id].Slot(kind).value))
    && (forall id :: id in builders ==> builders[id].up.Some? || builders[id].down.Some?)
  }

  ghost predicate Holds(builders: map<MigrationId, PairBuilder>, a: Asset)
    requires a.parsed.Ok?
  {
    a.parsed.value.id in builders
    && builders[a.parsed.value.id].Slot(a.parsed.value.kind) == Some((a.parsed.value, a.path))
  }

  ghost predicate FiledAt(a: Asset, id: MigrationId, kind: Kind, entry: (Script, string)) {
    a.parsed == Ok(entry.0) && a.path == entry.1 && entry.0.id == id && entry.0.kind == kind
  }

  ghost predicate Versioned(assets: seq<Asset>, versions: map<nat, string>) {
    && (forall i :: 0 <= i < |assets| && assets[i].parsed.Ok? ==> Names(versions, assets[i].parsed.value.id))
    && (forall v :: v in versions ==> exists i :: 0 <= i < |assets| && assets[i].parsed.Ok?
                                               && assets[i].parsed.value.id == MigrationId(v, versions[v]))
  }

  ghost predicate Names(versions: map<nat, string>, id: MigrationId) {
    id.version in versions && versions[id.version] == id.name
  }

  /** The error is that of an asset that does not parse, or names what is wrong with those that do. */
  ghost predicate Shows(assets: seq<Asset>, e: MigrationError) {
    (exists i :: 0 <= i < |assets| && assets[i].parsed == Err(e)) ||
    match e
    case ConflictingVersion(version, existing, conflicting) =>
      existing != conflicting && Named(assets, MigrationId(version, existing))
      && Named(assets, MigrationId(version, conflicting))
    case DuplicateScript(id, kind, first, second) =>
      exists i, j :: 0 <= i < j < |assets| && Gives(assets[i], id, kind, first) && Gives(assets[j], id, kind, second)
    case MissingScript(id, kind) =>
      Named(assets, id) && forall i :: 0 <= i < |assets| ==> !IsScript(assets[i], id, kind)
    case _ => false
  }

  ghost predicate Named(assets: seq<Asset>, id: MigrationId) {
    exists i :: 0 <= i < |assets| && assets[i].parsed.Ok? && assets[i].parsed.value.id == id
  }

  predicate IsScript(a: Asset, id: MigrationId, kind: Kind) {
    a.parsed.Ok? && a.parsed.value.id == id && a.parsed.value.kind == kind
  }

  predicate Gives(a: Asset, id: MigrationId, kind: Kind, path: string) {
    IsScript(a, id, kind) && a.path == path
  }

  method FileAssets(assets: seq<Asset>) returns (r: Result<map<MigrationId, PairBuilder>, MigrationError>)
    ensures r.Err? ==> !Buildable(assets) && Shows(assets, r.error)
    ensures r.Ok? ==> Filed(assets, r.value) && Consistent(assets)
  {
    var builders: map<MigrationId, PairBuilder> := map[];
    var versions: map<nat, string> := map[];
    for k := 0 to |assets|
      invariant Filed(assets[..k], builders) && Versioned(assets[..k], versions) && Consistent(assets[..k])
    {
      assert assets[..k + 1] == assets[..k] + [assets[k]];
      if assets[k].parsed.Err? {
        return Err(assets[k].parsed.error);
      }
      var script := assets[k].parsed.value;
      var id := script.id;
      if id.version in versions && versions[id.version] != id.name {
        VersionTaken(assets, k, versions);
        return Err(ConflictingVersion(id.version, versions[id.version], id.name));
      }
      var inserted := Inserted(builders, assets[k]);
      if inserted.Err? {
        SlotTaken(assets, k, builders);
        return Err(inserted.error);
      }
      StillConsistent(assets[..k], builders, versions, assets[k]);
      StillFiled(assets[..k], builders, assets[k]);
      StillVersioned(assets[..k], versions, assets[k]);
      versions := versions[id.version := id.name];
      builders := builders[id := inserted.value];
    }
    assert assets[..|assets|] == assets;
    return Ok(builders);
  }

  lemma VersionTaken(assets: seq<Asset>, k: nat, versions: map<nat, string>)
    requires k < |assets| && Versioned(assets[..k], versions) && assets[k].parsed.Ok?
    requires var id := assets[k].parsed.value.id; id.version in versions && versions[id.version] != id.name
    ensures !Buildable(assets)
    ensures var id := assets[k].parsed.value.id;
      Shows(assets, ConflictingVersion(id.version, versions[id.version], id.name))
  {
    var v := assets[k].parsed.value.id.version;
    var i :| 0 <= i < k && assets[..k][i].parsed.Ok? && assets[..k][i].parsed.value.id == MigrationId(v, versions[v]);
    assert !SameNames(assets[i], assets[k]);
    assert assets[i].parsed.value.id == MigrationId(v, versions[v]);
    assert assets[k].parsed.value.id == MigrationId(v, assets[k].parsed.value.id.name);
  }

  lemma SlotTaken(assets: seq<Asset>, k: nat, builders: map<MigrationId, PairBuilder>)
    requires k < |assets| && Filed(assets[..k], builders) && assets[k].parsed.Ok?
    requires var s := assets[k].parsed.value; s.id in builders && builders[s.id].Slot(s.kind).Some?
    ensures !Buildable(assets)
    ensures var s := assets[k].parsed.value;
      Shows(assets, DuplicateScript(s.id, s.kind, builders[s.id].Slot(s.kind).value.1, assets[k].path))
  {
    var s := assets[k].parsed.value;
    var i :| 0 <= i < k && FiledAt(assets[..k][i], s.id, s.kind, builders[s.id].Slot(s.kind).value);
    assert SameSlot(assets[i], assets[k]);
    assert Gives(assets[i], s.id, s.kind, builders[s.id].Slot(s.kind).value.1);
    assert Gives(assets[k], s.id, s.kind, assets[k].path);
  }

  lemma StillConsistent(assets: seq<Asset>, builders: map<MigrationId, PairBuilder>, versions: map<nat, string>,
        a: Asset)
    requires Filed(assets, builders) && Versioned(assets, versions) && Consistent(assets) && a.parsed.Ok?
    requires var id := a.parsed.value.id;
             && (id.version in versions ==> versions[id.version] == id.name)
             && (id in builders ==> builders[id].Slot(a.parsed.value.kind).None?)
    ensures Consistent(assets + [a])
  {
    forall i | 0 <= i < |assets| ensures SameNames(assets[i], a) && SameNames(a, assets[i]) && !SameSlot(assets[i], a) {
      assert Holds(builders, assets[i]) && Names(versions, assets[i].parsed.value.id);
    }
    var all := assets + [a];
    forall i, j | 0 <= i < |all| && 0 <= j < |all| ensures SameNames(all[i], all[j]) {
      if i < |assets| && j < |assets| {
        assert SameNames(assets[i], assets[j]);
      }
    }
    forall i, j | 0 <= i < j < |all| ensures !SameSlot(all[i], all[j]) {
      if j < |assets| {
        assert !SameSlot(assets[i], assets[j]);
      }
    }
  }

  lemma StillVersioned(assets: seq<Asset>, versions: map<nat, string>, a: Asset)
    requires Versioned(assets, versions) && a.parsed.Ok?
    requires var id := a.parsed.value.id; id.version in versions ==> versions[id.version] == id.name
    ensures Versioned(assets + [a], versions[a.parsed.value.id.version := a.parsed.value.id.name])
  {
    var all, id := assets + [a], a.parsed.value.id;
    var after := versions[id.version := id.name];
    forall i | 0 <= i < |all| && all[i].parsed.Ok? ensures Names(after, all[i].parsed.value.id) {
      assert i < |assets| ==> Names(versions, assets[i].parsed.value.id);
    }
    forall v | v in after
      ensures exists i :: 0 <= i < |all| && all[i].parsed.Ok? && all[i].parsed.value.id == MigrationId(v, after[v])
    {
      if v == id.version {
        assert all[|assets|] == a;
      } else {
        var i :| 0 <= i < |assets| && assets[i].parsed.Ok? && assets[i].parsed.value.id == MigrationId(v, versions[v]);
        assert all[i] == assets[i];
      }
    }
  }

  lemma StillFiled(assets: seq<Asset>, before: map<MigrationId, PairBuilder>, a: Asset)
    requires Filed(assets, before) && a.parsed.Ok?
    requires Inserted(before, a).Ok?
    ensures Filed(assets + [a], before[a.parsed.value.id := Inserted(before, a).value])
  {
    var all, s := assets + [a], a.parsed.value;
    var after := before[s.id := Inserted(before, a).value];
    forall i | 0 <= i < |all| ensures Holds(after, all[i]) {
      assert i < |assets| ==> Holds(before, assets[i]);
    }
    forall id, kind | id in after && after[id].Slot(kind).Some?
      ensures exists i :: 0 <= i < |all| && FiledAt(all[i], id, kind, after[id].Slot(kind).value)
    {
      if id == s.id && kind == s.kind {
        assert FiledAt(all[|assets|], id, kind, after[id].Slot(kind).value);
      } else {
        assert id in before && before[id].Slot(kind) == after[id].Slot(kind);
        var i :| 0 <= i < |assets| && FiledAt(assets[i], id, kind, before[id].Slot(kind).value);
        assert all[i] == assets[i];
      }
    }
  }

  function Inserted(builders: map<MigrationId, PairBuilder>, a: Asset): Result<PairBuilder, MigrationError>
    requires a.parsed.Ok?
  {
    var id := a.parsed.value.id;
    (if id in builders then builders[id] else PairBuilder(None, None)).Insert(id, a.parsed.value, a.path)
  }

  /** The pairs of the identifiers taken so far, which come before all that remain. */
  ghost predicate Built(builders: map<MigrationId, PairBuilder>, remaining: set<MigrationId>, pairs: seq<Pair>) {
    && remaining <= builders.Keys
    && (forall i :: 0 <= i < |pairs| ==> BuiltFrom(builders, pairs[i]) && pairs[i].id !in remaining)
    && (forall i, x :: 0 <= i < |pairs| && x in remaining ==> IdLess(pairs[i].id, x))
    && (forall i, j :: 0 <= i < j < |pairs| ==> IdLess(pairs[i].id, pairs[j].id))
    && (forall id :: id in builders && id !in remaining ==> HasPair(pairs, id))
  }

  ghost predicate HasPair(pairs: seq<Pair>, id: MigrationId) {
    exists i :: 0 <= i < |pairs| && pairs[i].id == id
  }

  lemma BuiltOneMore(builders: map<MigrationId, PairBuilder>, remaining: set<MigrationId>, pairs: seq<Pair>, pair: Pair)
    requires Built(builders, remaining, pairs) && BuiltFrom(builders, pair)
    requires pair.id in remaining && forall y :: y in remaining && y != pair.id ==> IdLess(pair.id, y)
    ensures Built(builders, remaining - {pair.id}, pairs + [pair])
  {
    var more := pairs + [pair];
    assert more[|pairs|] == pair;
    forall id | id in builders && id !in remaining - {pair.id}
      ensures HasPair(more, id)
    {
      if id != pair.id {
        assert HasPair(pairs, id);
        var i :| 0 <= i < |pairs| && pairs[i].id == id;
        assert more[i] == pairs[i];
      }
    }
  }

  /** Succeeds exactly on buildable assets, with their catalog. */
  method FromAssets(assets: seq<Asset>) returns (r: Result<seq<Pair>, MigrationError>)
    ensures r.Ok? <==> Buildable(assets)
    ensures r.Ok? ==> IsCatalogOf(r.value, assets)
    ensures r.Err? ==> Shows(assets, r.error)
  {
    var filed := FileAssets(assets);
    if filed.Err? {
      return Err(filed.error);
    }
    var builders := filed.value;
    var pairs: seq<Pair> := [];
    var remaining := builders.Keys;
    // The ordered map is consumed in key order.
    while remaining != {}
      invariant Built(builders, remaining, pairs)
      decreases |remaining|
    {
      var id := TakeLeast(remaining);
      var finished := builders[id].Finish(id);
      FinishSucceedsWhenPaired(assets, builders, id);
      if finished.Err? {
        return Err(finished.error);
      }
      BuiltOneMore(builders, remaining, pairs, finished.value);
      pairs := pairs + [finished.value];
      remaining := remaining - {id};
    }
    CatalogComplete(assets, builders, pairs);
    return Ok(pairs);
  }

  method TakeLeast(ids: set<MigrationId>) returns (id: MigrationId)
    requires ids != {}
    ensures id in ids && forall y :: y in ids && y != id ==> IdLess(id, y)
  {
    ghost var least := LeastId(ids);
    assert exists x :: x in ids && forall y :: y in ids && y != x ==> IdLess(x, y);
    id :| id in ids && forall y :: y in ids && y != id ==> IdLess(id, y);
  }

  ghost predicate BuiltFrom(builders: map<MigrationId, PairBuilder>, p: Pair) {
    p.id in builders && builders[p.id].Finish(p.id) == Ok(p)
  }

  lemma FinishSucceedsWhenPaired(assets: seq<Asset>, builders: map<MigrationId, PairBuilder>, id: MigrationId)
    requires Filed(assets, builders) && id in builders
    ensures builders[id].Finish(id).Err? ==> !Buildable(assets) && Shows(assets, builders[id].Finish(id).error)
    ensures builders[id].Finish(id).Ok? ==> builders[id].Finish(id).value.id == id
  {
    var b := builders[id];
    if b.up.Some? {
      assert b.Slot(Up).Some?;
      var i :| 0 <= i < |assets| && FiledAt(assets[i], id, Up, b.Slot(Up).value);
    }
    if b.down.Some? {
      assert b.Slot(Down).Some?;
      var i :| 0 <= i < |assets| && FiledAt(assets[i], id, Down, b.Slot(Down).value);
    }
    if b.Finish(id).Err? {
      var kind := if b.up.None? then Down else Up;
      var i :| 0 <= i < |assets| && FiledAt(assets[i], id, kind, b.Slot(kind).value);
      forall j | 0 <= j < |assets| ensures !Counterparts(assets[i], assets[j]) {
        assert Holds(builders, assets[j]);
      }
      assert !HasCounterpart(assets, i);
      assert assets[i].parsed.value.id == id;
      forall j | 0 <= j < |assets| ensures !IsScript(assets[j], id, if b.up.None? then Up else Down) {
        assert Holds(builders, assets[j]);
      }
    }
  }

  lemma PairIsSourced(assets: seq<Asset>, builders: map<MigrationId, PairBuilder>, pairs: seq<Pair>, i: nat)
    requires Filed(assets, builders) && i < |pairs| && BuiltFrom(builders, pairs[i])
    ensures WellPaired(pairs[i]) && Sourced(assets, pairs, i)
  {
    var b := builders[pairs[i].id];
    assert b.Slot(Up).Some? && b.Slot(Down).Some?;
    var u :| 0 <= u < |assets| && FiledAt(assets[u], pairs[i].id, Up, b.Slot(Up).value);
    var d :| 0 <= d < |assets| && FiledAt(assets[d], pairs[i].id, Down, b.Slot(Down).value);
    assert assets[u] in assets && assets[d] in assets;
  }

  lemma VersionsIncrease(assets: seq<Asset>, pairs: seq<Pair>, i: nat, j: nat)
    requires Consistent(assets) && i < j < |pairs| && IdLess(pairs[i].id, pairs[j].id)
    requires WellPaired(pairs[i]) && WellPaired(pairs[j]) && Sourced(assets, pairs, i) && Sourced(assets, pairs, j)
    ensures pairs[i].id.version < pairs[j].id.version
  {
    var a :| a in assets && a.parsed == Ok(pairs[i].up);
    var b :| b in assets && b.parsed == Ok(pairs[j].up);
    NoClashInBag(assets, a, b);
    IdTotal(pairs[i].id, pairs[j].id);
  }

  lemma AssetIsCovered(assets: seq<Asset>, builders: map<MigrationId, PairBuilder>, pairs: seq<Pair>, k: nat, i: nat)
    requires Filed(assets, builders) && k < |assets| && i < |pairs|
    requires assets[k].parsed.Ok? && pairs[i].id == assets[k].parsed.value.id
    requires BuiltFrom(builders, pairs[i]) && WellPaired(pairs[i]) && Sourced(assets, pairs, i)
    ensures Covers(pairs, assets[k]) && HasCounterpart(assets, k)
  {
    var s := assets[k].parsed.value;
    assert Holds(builders, assets[k]);
    assert HasScript(pairs[i], s);
    var other := if s.kind == Up then pairs[i].down else pairs[i].up;
    var a :| a in assets && a.parsed == Ok(other);
    var j :| 0 <= j < |assets| && assets[j] == a;
    assert Counterparts(assets[k], assets[j]);
  }

  lemma CatalogComplete(assets: seq<Asset>, builders: map<MigrationId, PairBuilder>, pairs: seq<Pair>)
    requires Filed(assets, builders) && Consistent(assets)
    requires Built(builders, {}, pairs)
    ensures Buildable(assets) && IsCatalogOf(pairs, assets)
  {
    forall i | 0 <= i < |pairs| ensures WellPaired(pairs[i]) && Sourced(assets, pairs, i) {
      PairIsSourced(assets, builders, pairs, i);
    }
    forall i, j | 0 <= i < j < |pairs| ensures pairs[i].id.version < pairs[j].id.version {
      VersionsIncrease(assets, pairs, i, j);
    }
    forall k | 0 <= k < |assets| ensures Covers(pairs, assets[k]) && HasCounterpart(assets, k) {
      assert Holds(builders, assets[k]);
      assert HasPair(pairs, assets[k].parsed.value.id);
      var i :| 0 <= i < |pairs| && pairs[i].id == assets[k].parsed.value.id;
      AssetIsCovered(assets, builders, pairs, k, i);
    }
  }

  // ----- Reconciliation -------------------------------------------------------------------------

  /** The state-table row agrees with the source pair on everything but the timestamp. */
  predicate RowMatches(row: Applied, pair: Pair) {
    && row.id == pair.id
    && row.upChecksum == pair.up.checksum && row.downChecksum == pair.down.checksum
    && row.upMode == pair.up.mode && row.downMode == pair.down.mode
  }

  predicate MatchesPrefix(catalog: seq<Pair>, applied: seq<Applied>) {
    |applied| <= |catalog| && forall i :: 0 <= i < |applied| ==> RowMatches(applied[i], catalog[i])
  }

  function VerifyDrift(row: Applied, pair: Pair): Option<MigrationError> {
    if row.upChecksum != pair.up.checksum then Some(DriftDetected(row.id, UpChecksum))
    else if row.downChecksum != pair.down.checksum then Some(DriftDetected(row.id, DownChecksum))
    else if row.upMode != pair.up.mode then Some(DriftDetected(row.id, UpMode))
    else if row.downMode != pair.down.mode then Some(DriftDetected(row.id, DownMode))
    else None
  }

  /** Accepts exactly the applied lists that match a prefix of the catalog: the order check
      rejects nothing that the position check would accept. A rejection is at the first bad row. */
  method Reconcile(catalog: seq<Pair>, applied: seq<Applied>) returns (r: Option<MigrationError>)
    requires ByVersion(catalog)
    ensures r.None? <==> MatchesPrefix(catalog, applied)
    ensures r.Some? ==> Rejects(catalog, applied, r.value)
  {
    var previous: Option<MigrationId> := None;
    for k := 0 to |applied|
      invariant MatchesPrefix(catalog, applied[..k])
      invariant previous == if k == 0 then None else Some(catalog[k - 1].id)
    {
      assert applied[..k + 1] == applied[..k] + [applied[k]];
      var current := applied[k].id;
      if previous.Some? && !IdLess(previous.value, current) {
        // catalog ids increase, so this row cannot be the one at its position
        assert k < |catalog| && applied[k].id == catalog[k].id ==> false;
        assert RejectsRow(catalog, applied, k, NotAfter(previous.value, current));
        return Some(NotAfter(previous.value, current));
      }
      previous := Some(current);
      if k >= |catalog| {
        assert RejectsRow(catalog, applied, k, AppliedMissing(current));
        return Some(AppliedMissing(current));
      }
      if catalog[k].id != current {
        assert RejectsRow(catalog, applied, k, OrderMismatch(catalog[k].id, current));
        return Some(OrderMismatch(catalog[k].id, current));
      }
      var drift := VerifyDrift(applied[k], catalog[k]);
      if drift.Some? {
        assert RejectsRow(catalog, applied, k, drift.value);
        return drift;
      }
    }
    assert applied[..|applied|] == applied;
    return None;
  }

  predicate Differ(row: Applied, pair: Pair, drift: DriftReason) {
    match drift
    case UpChecksum => row.upChecksum != pair.up.checksum
    case DownChecksum => row.downChecksum != pair.down.checksum
    case UpMode => row.upMode != pair.up.mode
    case DownMode => row.downMode != pair.down.mode
  }

  /** `error` names a true fault of row `k`. */
  ghost predicate RejectsRow(catalog: seq<Pair>, applied: seq<Applied>, k: nat, error: MigrationError)
    requires k < |applied|
  {
    match error
    case NotAfter(previous, actual) =>
      k > 0 && applied[k - 1].id == previous && applied[k].id == actual && !IdLess(previous, actual)
      && (k < |catalog| ==> catalog[k].id != actual)
    case AppliedMissing(id) => k >= |catalog| && applied[k].id == id
    case OrderMismatch(expected, actual) =>
      k < |catalog| && catalog[k].id == expected && applied[k].id == actual && expected != actual
    case DriftDetected(id, drift) =>
      k < |catalog| && applied[k].id == id == catalog[k].id && Differ(applied[k], catalog[k], drift)
    case _ => false
  }

  /** It is the first row that does not match. */
  ghost predicate Rejects(catalog: seq<Pair>, applied: seq<Applied>, error: MigrationError) {
    exists k :: 0 <= k < |applied| && MatchesPrefix(catalog, applied[..k]) && RejectsRow(catalog, applied, k, error)
  }

  // ----- Plans ------------------------------------------------------------------------------------

  datatype PlanStep = ApplyStep(pair: Pair) | RollbackStep(pair: Pair, row: Applied)

  datatype Goal = ApplyAll | RollBack(steps: nat)

  function ApplySteps(catalog: seq<Pair>, done: nat): seq<PlanStep>
    requires done <= |catalog|
  {
    seq(|catalog| - done, i requires 0 <= i < |catalog| - done => ApplyStep(catalog[done + i]))
  }

  /** The last `count` applied migrations, newest first. */
  function RollbackSteps(catalog: seq<Pair>, applied: seq<Applied>, count: nat): seq<PlanStep>
    requires count <= |applied| <= |catalog|
  {
    seq(count, i requires 0 <= i < count =>
      RollbackStep(catalog[|applied| - 1 - i], applied[|applied| - 1 - i]))
  }

  /** The plan for `goal`, or None when the history does not reconcile. */
  function Plan(catalog: seq<Pair>, applied: seq<Applied>, goal: Goal): Option<seq<PlanStep>> {
    if !MatchesPrefix(catalog, applied) then None
    else match goal
      case ApplyAll => Some(ApplySteps(catalog, |applied|))
      case RollBack(n) => Some(RollbackSteps(catalog, applied, if n <= |applied| then n else |applied|))
  }

  /** The effect of one executed step on the history. */
  function Advance(history: seq<Applied>, step: PlanStep, at: nat): seq<Applied> {
    match step
    case ApplyStep(p) => history + [NewRow(p, at)]
    case RollbackStep(p, _) => if history == [] then [] else history[..|history| - 1]
  }

  function NewRow(p: Pair, at: nat): Applied {
    Applied(p.id, p.up.checksum, p.down.checksum, p.up.mode, p.down.mode, at)
  }

  /** A row matches a pair exactly if it is the row that applying the pair records. */
  lemma MatchIsRecorded(row: Applied, p: Pair)
    ensures RowMatches(row, p) <==> row == NewRow(p, row.appliedAt)
  {
  }

  function Execute(history: seq<Applied>, steps: seq<PlanStep>, at: nat): seq<Applied>
    decreases |steps|
  {
    if steps == [] then history else Execute(Advance(history, steps[0], at), steps[1..], at)
  }

  lemma {:induction false} ExecuteApply(catalog: seq<Pair>, history: seq<Applied>, at: nat)
    requires MatchesPrefix(catalog, history)
    ensures var after := Execute(history, ApplySteps(catalog, |history|), at);
            MatchesPrefix(catalog, after) && |after| == |catalog| && history <= after
    decreases |catalog| - |history|
  {
    var steps := ApplySteps(catalog, |history|);
    if |history| < |catalog| {
      var next := Advance(history, steps[0], at);
      assert steps[1..] == ApplySteps(catalog, |next|);
      ExecuteApply(catalog, next, at);
    }
  }

  lemma {:induction false} ExecuteRollback(catalog: seq<Pair>, history: seq<Applied>, count: nat, at: nat)
    requires MatchesPrefix(catalog, history) && count <= |history|
    ensures Execute(history, RollbackSteps(catalog, history, count), at) == history[..|history| - count]
    decreases count
  {
    var steps := RollbackSteps(catalog, history, count);
    if count > 0 {
      var next := Advance(history, steps[0], at);
      assert steps[1..] == RollbackSteps(catalog, next, count - 1);
      ExecuteRollback(catalog, next, count - 1, at);
      assert next[..|next| - (count - 1)] == history[..|history| - count];
    } else {
      assert history[..|history|] == history;
    }
  }

  predicate SameButTimes(a: seq<Applied>, b: seq<Applied>) {
    |a| == |b| && forall i :: 0 <= i < |a| ==> a[i].(appliedAt := 0) == b[i].(appliedAt := 0)
  }

  /** Executing the apply plan leaves nothing to apply; rolling back any number of migrations
      and applying again restores the history up to timestamps. */
  lemma PlansComplete(catalog: seq<Pair>, history: seq<Applied>, n: nat, t: nat, u: nat)
    requires MatchesPrefix(catalog, history)
    ensures var applied := Execute(history, Plan(catalog, history, ApplyAll).value, t);
            && Plan(catalog, applied, ApplyAll) == Some([])
            && var rolled := Execute(applied, Plan(catalog, applied, RollBack(n)).value, u);
               Plan(catalog, rolled, ApplyAll).Some?
               && SameButTimes(applied, Execute(rolled, Plan(catalog, rolled, ApplyAll).value, u))
  {
    ExecuteApply(catalog, history, t);
    assert ApplySteps(catalog, |catalog|) == [];
    var applied := Execute(history, ApplySteps(catalog, |history|), t);
    var count := if n <= |applied| then n else |applied|;
    ExecuteRollback(catalog, applied, count, u);
    ExecuteApply(catalog, applied[..|applied| - count], u);
  }

  method PlanFor(catalog: seq<Pair>, applied: seq<Applied>, goal: Goal)
    returns (r: Result<seq<PlanStep>, MigrationError>)
    requires ByVersion(catalog)
    ensures r.Ok? <==> Plan(catalog, applied, goal).Some?
    ensures r.Ok? ==> Plan(catalog, applied, goal) == Some(r.value)
    ensures r.Err? ==> Rejects(catalog, applied, r.error)
  {
    var rejection := Reconcile(catalog, applied);
    if rejection.Some? {
      return Err(rejection.value);
    }
    match goal {
      case ApplyAll => return Ok(ApplySteps(catalog, |applied|));
      case RollBack(n) => return Ok(RollbackSteps(catalog, applied, if n <= |applied| then n else |applied|));
    }
  }
}
