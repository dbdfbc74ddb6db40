/**
 The vector-collection manager (src/vectorstore.py): the reachability check and
 the reconciliation of a named collection's vector size with the active
 embedding backend's dimension.

 The vector database is a value: whether it answers at all, and a map from
 collection name to collection. Each client call the code makes is a function
 on that value.
 */
module VectorStore {
  import opened Results
  import opened Text
  import opened Config

  datatype Distance = Cosine | Dot | Euclid | Manhattan

  /** A collection's vector configuration as the client reports it: a parameters object,
      a dict-shaped configuration whose `"size"` entry is an integer or absent (`sizeEntry` holds
      it; a non-integer entry counts as absent, which the only caller treats alike), or none */
  datatype VectorsConfig =
    | Params(size: int, distance: Distance)
    | AsDict(sizeEntry: Option<int>)
    | NoVectors

  datatype Point = Point(vector: seq<real>, payload: map<string, string>)

  datatype Collection = Collection(vectors: VectorsConfig, points: seq<Point>)

  /** Whether the server answers; `Down` carries what a failed call raises */
  datatype Health = Up | Down(error: Exception)

  datatype Store = Store(health: Health, collections: map<string, Collection>)

  /** A fresh, empty collection of the given size with cosine distance */
  function Fresh(size: int): Collection {
    Collection(Params(size, Cosine), [])
  }

  /** Every point of a sized collection has a vector of that size */
  predicate WellFormed(store: Store) {
    forall name :: name in store.collections && store.collections[name].vectors.Params? ==>
      forall p :: p in store.collections[name].points ==>
        |p.vector| == store.collections[name].vectors.size
  }

  /** The store with nothing but `name` possibly replaced */
  ghost predicate OnlyTouches(before: Store, after: Store, name: string) {
    && after.health == before.health
    && (forall n :: n != name ==> (n in after.collections <==> n in before.collections))
    && (forall n :: n != name && n in before.collections ==> after.collections[n] == before.collections[n])
  }

  /** The fixed part of the not-reachable error; the URL follows it */
  const UnreachablePrefix := "Qdrant is not reachable. Verify QDRANT_URL and QDRANT_API_KEY (Qdrant Cloud) and network connectivity.\nTried: "

  function UnreachableMessage(url: string): string {
    UnreachablePrefix + url
  }

  /** `ensure_qdrant_ready`: any failure of the listing call becomes the not-reachable error */
  function EnsureQdrantReady(store: Store, url: string): (r: Outcome)
    ensures r.Done? <==> store.health.Up?
    ensures r.Failed? ==> r.error == Exception(RuntimeError, UnreachableMessage(url))
  {
    if store.health.Up? then Done else Failed(Exception(RuntimeError, UnreachableMessage(url)))
  }

  /** `ensure_collection`: create the collection, with the given size and cosine distance,
      only when it cannot be found and a size is given. A failed lookup counts as absent, so
      on a server that does not answer the creation call raises. `create` is the outcome of
      the creation call on a server that answers. */
  function EnsureCollection(store: Store, name: string, size: Option<int>, create: Outcome): (r: Result<Store>)
    ensures name in store.collections && store.health.Up? ==> r == Ok(store)
    ensures size.None? ==> r == Ok(store)
    ensures store.health.Up? && name !in store.collections && size.Some? && create.Done? ==>
      r == Ok(store.(collections := store.collections[name := Fresh(size.value)]))
    ensures store.health.Up? && name !in store.collections && size.Some? && create.Failed? ==>
      r == Err(create.error)
    ensures store.health.Down? && size.Some? ==> r == Err(store.health.error)
    ensures r.Ok? ==> OnlyTouches(store, r.value, name)
  {
    var exists_ := store.health.Up? && name in store.collections;
    if !exists_ && size.Some? then
      if store.health.Down? then Err(store.health.error)
      else if create.Failed? then Err(create.error)
      else Ok(store.(collections := store.collections[name := Fresh(size.value)]))
    else Ok(store)
  }

  /** `_get_existing_vector_size`: the size of the stored configuration, or nothing when the
      collection cannot be read or has no size */
  function ExistingVectorSize(store: Store, name: string): (r: Option<int>)
    ensures r.Some? ==> store.health.Up? && name in store.collections
    ensures store.health.Up? && name in store.collections ==>
      && (store.collections[name].vectors.Params? ==> r == Some(store.collections[name].vectors.size))
      && (store.collections[name].vectors.AsDict? ==> r == store.collections[name].vectors.sizeEntry)
      && (store.collections[name].vectors.NoVectors? ==> r.None?)
  {
    if store.health.Down? || name !in store.collections then None
    else match store.collections[name].vectors
      case Params(size, _) => Some(size)
      case AsDict(entry) => entry
      case NoVectors => None
  }

  /** The dimension used when the probe tells nothing */
  const FallbackDimension: nat := 384

  /** `_detect_embedding_dimension`: the length of the embedding of `"dimension probe"`,
      or 384 when embedding fails or yields an empty vector */
  function DetectEmbeddingDimension(probe: Result<seq<real>>): (d: nat)
    ensures d > 0
    ensures probe.Ok? && |probe.value| > 0 ==> d == |probe.value|
    ensures probe.Err? || |probe.value| == 0 ==> d == FallbackDimension
  {
    if probe.Ok? && |probe.value| > 0 then |probe.value| else FallbackDimension
  }

  /** `QDRANT_AUTO_RECREATE`, trimmed and lower-cased, equals `"true"` */
  predicate AutoRecreate(env: Env) {
    Flag(env, "QDRANT_AUTO_RECREATE") == "true"
  }

  /** `collection_name or settings.qdrant_collection`: an absent or empty name means the default */
  function ResolveCollection(name: Option<string>, settings: Settings): (r: string)
    ensures name.Some? && name.value != "" ==> r == name.value
    ensures name.None? || name.value == "" ==> r == settings.qdrantCollection
  {
    if name.Some? && name.value != "" then name.value else settings.qdrantCollection
  }

  /** The fixed parts of the mismatch error, around the collection and the two sizes */
  const MismatchHead := "Qdrant collection '"
  const MismatchExisting := "' has dimension "
  const MismatchProduced := ", but embeddings produce "
  const MismatchAdvice := ". Set QDRANT_AUTO_RECREATE=true in .env to drop & recreate the collection automatically, or change QDRANT_COLLECTION to a new name."

  function MismatchMessage(collection: string, existing: int, dim: int): string {
    MismatchHead + collection + MismatchExisting + IntToString(existing)
      + MismatchProduced + IntToString(dim) + MismatchAdvice
  }

  /** The mismatch error names the collection */
  lemma MismatchMessageNamesCollection(collection: string, existing: int, dim: int)
    ensures Contains(MismatchMessage(collection, existing, dim), collection)
  {
    var s := MismatchHead + collection;
    ContainsAtEnd(MismatchHead, collection);
    ContainsExtended(s, collection, MismatchExisting);
    s := s + MismatchExisting;
    ContainsExtended(s, collection, IntToString(existing));
    s := s + IntToString(existing);
    ContainsExtended(s, collection, MismatchProduced);
    s := s + MismatchProduced;
    ContainsExtended(s, collection, IntToString(dim));
    s := s + IntToString(dim);
    ContainsExtended(s, collection, MismatchAdvice);
  }

  /** The mismatch error names the size the collection has */
  lemma MismatchMessageNamesExisting(collection: string, existing: int, dim: int)
    ensures Contains(MismatchMessage(collection, existing, dim), IntToString(existing))
  {
    var t := IntToString(existing);
    var s := MismatchHead + collection + MismatchExisting + t;
    ContainsAtEnd(MismatchHead + collection + MismatchExisting, t);
    ContainsExtended(s, t, MismatchProduced);
    s := s + MismatchProduced;
    ContainsExtended(s, t, IntToString(dim));
    s := s + IntToString(dim);
    ContainsExtended(s, t, MismatchAdvice);
  }

  /** The mismatch error names the size the embeddings produce */
  lemma MismatchMessageNamesDimension(collection: string, existing: int, dim: int)
    ensures Contains(MismatchMessage(collection, existing, dim), IntToString(dim))
  {
    var t := IntToString(dim);
    var s := MismatchHead + collection + MismatchExisting + IntToString(existing) + MismatchProduced + t;
    ContainsAtEnd(MismatchHead + collection + MismatchExisting + IntToString(existing) + MismatchProduced, t);
    ContainsExtended(s, t, MismatchAdvice);
  }

  /** How reconciliation ended. `discarded` is the error that was raised inside the block and
      then swallowed: the mismatch error, a failed creation of the absent collection, a failed
      creation after the drop, or (`NotDropped`) the failed drop, after which the creation is
      refused because the name is still taken. */
  datatype Reconciliation =
    | Created
    | Matched
    | Unchecked
    | Recreated
    | Mismatch(discarded: Exception)
    | NotCreated(discarded: Exception)
    | Dropped(discarded: Exception)
    | NotDropped(discarded: Exception)

  /** The outcomes of the writes reconciliation may issue on a server that answers: creating
      the absent collection, dropping a mismatching one, and creating it again after the drop */
  datatype Writes = Writes(create: Outcome, delete: Outcome, recreate: Outcome)

  /** What `get_vectorstore` leaves behind: the store, the collection it binds to, the
      probed dimension and how reconciliation ended */
  datatype Opened = Opened(store: Store, collection: string, dim: nat, report: Reconciliation)

  /** The reconciliation block, on a server that answers: ensure the collection at the probed
      size, read its size back, and on a difference either drop and recreate it or raise */
  function Reconcile(store: Store, name: string, dim: nat, recreate: bool, writes: Writes): (o: Opened)
    requires store.health.Up?
    ensures o.collection == name && o.dim == dim
    ensures OnlyTouches(store, o.store, name)
    ensures o.report.Created? <==> name !in store.collections && writes.create.Done?
    ensures name in o.store.collections <==> !(o.report.NotCreated? || o.report.Dropped?)
    ensures o.store != store ==> o.report.Created? || o.report.Recreated? || o.report.Dropped?
  {
    match EnsureCollection(store, name, Some(dim as int), writes.create)
    case Err(e) => Opened(store, name, dim, NotCreated(e))
    case Ok(s1) =>
      var created := name !in store.collections;
      match ExistingVectorSize(s1, name)
      case Some(existing) =>
        if existing == dim as int then Opened(s1, name, dim, if created then Created else Matched)
        else if !recreate then
          Opened(s1, name, dim, Mismatch(Exception(RuntimeError, MismatchMessage(name, existing, dim))))
        else if writes.delete.Failed? then
          // the failed drop is ignored, but the name stays taken and the creation is refused
          Opened(s1, name, dim, NotDropped(writes.delete.error))
        else
          var deleted := s1.(collections := s1.collections - {name});
          if writes.recreate.Failed? then Opened(deleted, name, dim, Dropped(writes.recreate.error))
          else Opened(deleted.(collections := deleted.collections[name := Fresh(dim)]), name, dim, Recreated)
      case None => Opened(s1, name, dim, Unchecked)
  }

  /** An absent collection is created empty at the probed size */
  lemma ReconcileCreates(store: Store, name: string, dim: nat, recreate: bool, writes: Writes)
    requires store.health.Up? && name !in store.collections && writes.create.Done?
    ensures var o := Reconcile(store, name, dim, recreate, writes);
      o.report == Created && o.store.collections == store.collections[name := Fresh(dim)]
  {
  }

  /** When the creation of an absent collection fails, the failure is swallowed and the
      collection stays absent */
  lemma ReconcileCreateFails(store: Store, name: string, dim: nat, recreate: bool, writes: Writes)
    requires store.health.Up? && name !in store.collections && writes.create.Failed?
    ensures var o := Reconcile(store, name, dim, recreate, writes);
      o.report == NotCreated(writes.create.error) && o.store == store
  {
  }

  /** A collection whose size already matches is left alone */
  lemma ReconcileMatches(store: Store, name: string, dim: nat, recreate: bool, writes: Writes)
    requires store.health.Up? && name in store.collections
    requires ExistingVectorSize(store, name) == Some(dim as int)
    ensures var o := Reconcile(store, name, dim, recreate, writes); o.report == Matched && o.store == store
  {
  }

  /** A collection whose size cannot be read is left alone, unchecked */
  lemma ReconcileUnchecked(store: Store, name: string, dim: nat, recreate: bool, writes: Writes)
    requires store.health.Up? && name in store.collections
    requires ExistingVectorSize(store, name).None?
    ensures var o := Reconcile(store, name, dim, recreate, writes); o.report == Unchecked && o.store == store
  {
  }

  /** A collection of another size: without the recreate flag it is left as it was and the
      error naming both sizes is raised (and then discarded by the caller); with it, the
      collection is dropped and created empty at the probed size, unless the drop fails (the
      collection stays as it was) or the creation after it fails (the collection is gone) */
  lemma ReconcileMismatch(store: Store, name: string, dim: nat, recreate: bool, writes: Writes)
    requires store.health.Up? && name in store.collections
    requires ExistingVectorSize(store, name).Some? && ExistingVectorSize(store, name) != Some(dim as int)
    ensures var o := Reconcile(store, name, dim, recreate, writes);
      && (!recreate ==> o.store == store)
      && (!recreate ==> o.report == Mismatch(Exception(RuntimeError, MismatchMessage(name, ExistingVectorSize(store, name).value, dim))))
      && (recreate && writes.delete.Failed? ==> o.report == NotDropped(writes.delete.error) && o.store == store)
      && (recreate && writes.delete.Done? && writes.recreate.Failed? ==>
            o.report == Dropped(writes.recreate.error) && o.store.collections == store.collections - {name})
      && (recreate && writes.delete.Done? && writes.recreate.Done? ==>
            o.report == Recreated && o.store.collections == store.collections[name := Fresh(dim)])
  {
    var s1 := EnsureCollection(store, name, Some(dim as int), writes.create).value;
    assert s1 == store;
    if recreate && writes.delete.Done? && writes.recreate.Done? {
      var deleted := store.(collections := store.collections - {name});
      assert deleted.collections[name := Fresh(dim)] == store.collections[name := Fresh(dim)];
    }
  }

  /** `get_vectorstore`: resolve the name, check reachability (the one error that escapes),
      then reconcile, discarding any error raised while reconciling. `probe` is the outcome of
      embedding `"dimension probe"` with the active backend. */
  function GetVectorstore(store: Store, name: Option<string>, settings: Settings, env: Env, probe: Result<seq<real>>,
                          writes: Writes)
    : (r: Result<Opened>)
    ensures r.Err? <==> store.health.Down?
    ensures r.Err? ==> r.error == Exception(RuntimeError, UnreachableMessage(settings.qdrantUrl))
    ensures r.Ok? ==>
      && r.value.collection == ResolveCollection(name, settings)
      && r.value.dim == DetectEmbeddingDimension(probe)
      && r.value == Reconcile(store, r.value.collection, r.value.dim, AutoRecreate(env), writes)
  {
    var collection := ResolveCollection(name, settings);
    var ready := EnsureQdrantReady(store, settings.qdrantUrl);
    if ready.Failed? then Err(ready.error)
    else Ok(Reconcile(store, collection, DetectEmbeddingDimension(probe), AutoRecreate(env), writes))
  }

  /** After reconciliation the collection is present unless a creation failed; its size is
      the probed one when it was created, matched or recreated */
  lemma ReconcileLeavesCollection(store: Store, name: string, dim: nat, recreate: bool, writes: Writes)
    requires store.health.Up?
    ensures var o := Reconcile(store, name, dim, recreate, writes);
      && (name in o.store.collections <==> !(o.report.NotCreated? || o.report.Dropped?))
      && (o.report.Created? || o.report.Matched? || o.report.Recreated? ==>
            ExistingVectorSize(o.store, name) == Some(dim as int))
      && (o.report.Created? || o.report.Recreated? ==> o.store.collections[name] == Fresh(dim))
  {
  }

  /** Reconciling twice with the same dimension and the same write outcomes changes nothing
      the second time, unless the first run dropped the collection and failed to recreate it */
  lemma {:induction false} ReconcileIdempotent(store: Store, name: string, dim: nat, recreate: bool, writes: Writes)
    requires store.health.Up?
    requires !Reconcile(store, name, dim, recreate, writes).report.Dropped?
    ensures var once := Reconcile(store, name, dim, recreate, writes);
      Reconcile(once.store, name, dim, recreate, writes).store == once.store
  {
    var once := Reconcile(store, name, dim, recreate, writes);
    ReconcileLeavesCollection(store, name, dim, recreate, writes);
    if once.report.NotCreated? || once.report.NotDropped? {
      assert once.store == store;
    } else {
      var existing := ExistingVectorSize(once.store, name);
      if existing == Some(dim as int) {
      } else if existing.None? {
      } else {
        assert once.report.Mismatch? || once.report.Unchecked?;
        assert !recreate;
      }
    }
  }

  /** A collection dropped but not recreated is created again by the next reconciliation
      whose first creation goes through */
  lemma DroppedCollectionComesBack(store: Store, name: string, dim: nat, recreate: bool, writes: Writes)
    requires store.health.Up?
    requires Reconcile(store, name, dim, recreate, writes).report.Dropped? && writes.create.Done?
    ensures var once := Reconcile(store, name, dim, recreate, writes);
      var twice := Reconcile(once.store, name, dim, recreate, writes);
      twice.report == Created && twice.store.collections[name] == Fresh(dim)
  {
  }

  /** Opening the same collection twice with the same probe mutates nothing the second time,
      unless the first opening dropped the collection and failed to recreate it */
  lemma GetVectorstoreIdempotent(store: Store, name: Option<string>, settings: Settings, env: Env,
                                 probe: Result<seq<real>>, writes: Writes)
    requires GetVectorstore(store, name, settings, env, probe, writes).Ok?
    requires !GetVectorstore(store, name, settings, env, probe, writes).value.report.Dropped?
    ensures var once := GetVectorstore(store, name, settings, env, probe, writes).value;
      GetVectorstore(once.store, name, settings, env, probe, writes) == Ok(Reconcile(once.store, once.collection, once.dim, AutoRecreate(env), writes))
      && GetVectorstore(once.store, name, settings, env, probe, writes).value.store == once.store
  {
    var once := GetVectorstore(store, name, settings, env, probe, writes).value;
    ReconcileIdempotent(store, once.collection, once.dim, AutoRecreate(env), writes);
  }

  /** A dimension mismatch without the recreate flag is reported only by the discarded error:
      the call returns normally and the collection keeps its size and its points */
  lemma MismatchIsSwallowed(store: Store, name: Option<string>, settings: Settings, env: Env,
                            probe: Result<seq<real>>, writes: Writes)
    requires store.health.Up?
    requires !AutoRecreate(env)
    requires var c := ResolveCollection(name, settings);
      c in store.collections && store.collections[c].vectors.Params?
      && store.collections[c].vectors.size != DetectEmbeddingDimension(probe) as int
    ensures var r := GetVectorstore(store, name, settings, env, probe, writes);
      r.Ok? && r.value.store == store && r.value.report.Mismatch?
  {
  }

  /** With the recreate flag, and both the drop and the creation going through, a mismatch
      leaves an empty collection of the probed size */
  lemma MismatchRecreates(store: Store, name: Option<string>, settings: Settings, env: Env,
                          probe: Result<seq<real>>, writes: Writes)
    requires store.health.Up?
    requires AutoRecreate(env)
    requires writes.delete.Done? && writes.recreate.Done?
    requires var c := ResolveCollection(name, settings);
      c in store.collections && store.collections[c].vectors.Params?
      && store.collections[c].vectors.size != DetectEmbeddingDimension(probe) as int
    ensures var r := GetVectorstore(store, name, settings, env, probe, writes);
      var c := ResolveCollection(name, settings);
      && r.Ok? && r.value.report.Recreated?
      && r.value.store.collections[c].vectors == Params(DetectEmbeddingDimension(probe), Cosine)
      && r.value.store.collections[c].points == []
  {
  }

  /** With the recreate flag but a failing drop, the mismatching collection survives with its
      size and its points, and the call still returns normally */
  lemma FailedDropKeepsMismatch(store: Store, name: Option<string>, settings: Settings, env: Env,
                                probe: Result<seq<real>>, writes: Writes)
    requires store.health.Up?
    requires AutoRecreate(env)
    requires writes.delete.Failed?
    requires var c := ResolveCollection(name, settings);
      c in store.collections && store.collections[c].vectors.Params?
      && store.collections[c].vectors.size != DetectEmbeddingDimension(probe) as int
    ensures var r := GetVectorstore(store, name, settings, env, probe, writes);
      r.Ok? && r.value.store == store && r.value.report == NotDropped(writes.delete.error)
  {
  }

  /** Reconciliation keeps every stored vector the size of its collection */
  lemma ReconcilePreservesWellFormed(store: Store, name: string, dim: nat, recreate: bool, writes: Writes)
    requires store.health.Up?
    requires WellFormed(store)
    ensures WellFormed(Reconcile(store, name, dim, recreate, writes).store)
  {
    var o := Reconcile(store, name, dim, recreate, writes);
    forall n | n in o.store.collections && o.store.collections[n].vectors.Params?
      ensures forall p :: p in o.store.collections[n].points ==> |p.vector| == o.store.collections[n].vectors.size
    {
      if n != name {
        assert o.store.collections[n] == store.collections[n];
      }
    }
  }
}
