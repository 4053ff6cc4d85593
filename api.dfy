/** The HTTP handlers of functions/api/__init__.py over the document store. Handlers
    that only read are functions of the documents they read; handlers that write are
    methods on the `Database`, specified by the pure plan of what they write. The
    request itself (headers, query arguments, JSON body) arrives as parameters, and so
    do the values the handlers draw from outside: fresh UUIDs, the current time and the
    geocoding provider's decoded response. */
module Api {
  import opened Values
  import opened Store
  import opened Privilege
  import Geocoding
  import ItemsQuery

  /** The reply body of a handler that only reports success with a message. */
  datatype Done = Done

  const WS: string := "c"
  const ITEMS: string := "items"

  /** `db.collection(WS).document(workspace)`: the workspace's configuration document. */
  function WorkspaceRef(ws: string): DocRef
  {
    DocRef([WS], ws)
  }

  function ItemsCollection(ws: string): seq<string>
  {
    [WS, ws, ITEMS]
  }

  /** `db.collection(WS, workspace, ITEMS).document(item_id)`. */
  function ItemRef(ws: string, itemId: string): DocRef
  {
    DocRef(ItemsCollection(ws), itemId)
  }

  // ---------------------------------------------------------------------------
  // create_item

  /** `str(uuid.uuid4()).split("-")[-1]`: the last dash-separated group of a UUID. */
  function ShortId(uuid: string): (id: string)
    ensures '-' !in id
    ensures |id| <= |uuid| && uuid[|uuid| - |id|..] == id
    ensures |id| == |uuid| || uuid[|uuid| - |id| - 1] == '-'
  {
    var groups := ItemsQuery.SplitOn(uuid, '-');
    ItemsQuery.SplitOnLast(uuid, '-');
    groups[|groups| - 1]
  }

  /** The document create_item stores: the request body becomes the admin group, the
      user group starts empty and `info` records the id and the admin origin. */
  function NewItem(id: string, itemKey: string, metadata: Json): (item: Doc)
    ensures item.Keys == {"key", "info", "user", "admin"}
    ensures item["key"] == JStr(itemKey) && item["admin"] == metadata && item["user"] == JObj(map[])
    ensures item["info"] == JObj(map["_id" := JStr(id), "source" := JStr("admin")])
  {
    map["key" := JStr(itemKey),
        "info" := JObj(map["_id" := JStr(id), "source" := JStr("admin")]),
        "user" := JObj(map[]),
        "admin" := metadata]
  }

  /** create_item: only the workspace's admin key may create; the item is written under
      a fresh short id and returned with that id. */
  method CreateItem(db: Database, ws: string, key: Option<string>, metadata: Json, idUuid: string, keyUuid: string)
    returns (r: Outcome<Doc>)
    modifies db
    ensures var auth := Authenticate(Lookup(old(db.docs), WorkspaceRef(ws)), key, {AdminRole});
            && (auth.Ok? ==>
                  var item := NewItem(ShortId(idUuid), keyUuid, metadata);
                  && r == Ok(item["id" := JStr(ShortId(idUuid))])
                  && db.docs == old(db.docs)[ItemRef(ws, ShortId(idUuid)) := item])
            && (!auth.Ok? ==> r == auth.Propagate() && db.docs == old(db.docs))
  {
    var auth := Authenticate(Lookup(db.docs, WorkspaceRef(ws)), key, {AdminRole});
    if !auth.Ok? {
      return auth.Propagate();
    }
    var id := ShortId(idUuid);
    var item := NewItem(id, keyUuid, metadata);
    db.Set(ItemRef(ws, id), item);
    return Ok(item["id" := JStr(id)]);
  }

  /** Only the admin key creates; any other key is refused. */
  lemma CreateRequiresAdminKey(config: Option<Doc>, key: Option<string>)
    requires Authenticate(config, key, {AdminRole}).Ok?
    ensures Authenticate(config, key, {AdminRole}) == Ok(PRIVILEGE_ADMIN)
    ensures "key" in config.value && config.value["key"] == KeyValue(key)
  {
  }

  /** The key handed out with a new item unlocks it at PRIVATE_KEY tier, and no other
      key does. */
  lemma NewItemKeyUnlocks(id: string, itemKey: string, metadata: Json, other: string, privilege: int)
    requires itemKey != "" && other != "" && other != itemKey
    ensures ItemKeyOverride(Some(NewItem(id, itemKey, metadata)), Some(itemKey), privilege) == Ok(PRIVILEGE_PRIVATE_KEY)
    ensures ItemKeyOverride(Some(NewItem(id, itemKey, metadata)), Some(other), privilege) == Forbidden
  {
    var item := NewItem(id, itemKey, metadata);
    assert item["key"] != JStr(other);
  }

  /** A new item whose metadata sets neither hiding flag is visible to the public,
      with the private metadata keys removed and an empty user group. */
  lemma NewItemPublicView(id: string, itemKey: string, metadata: Doc)
    requires !Truthy(Get(metadata, DELETED_FLAG)) && Get(metadata, PUBLICATION_FLAG) != JBool(false)
    ensures var item := NewItem(id, itemKey, JObj(metadata));
            ProcessItem(item, PRIVILEGE_PUBLIC) == Ok(View(TierView(JObj(map[]), JObj(StripPrivate(metadata)), item, PRIVILEGE_PUBLIC)))
  {
    var item := NewItem(id, itemKey, JObj(metadata));
    assert FlagSource(item) == JObj(metadata);
    var v := ProcessItem(item, PRIVILEGE_PUBLIC).value.fields;
    assert StripPrivate(GroupFields(item, "user")) == map[];
    assert v.Keys == TierView(JObj(map[]), JObj(StripPrivate(metadata)), item, PRIVILEGE_PUBLIC).Keys;
  }

  // ---------------------------------------------------------------------------
  // get_workspace and update_workspace

  /** get_workspace: the workspace's `metadata` group, private keys removed below
      ADMIN tier, with the caller's tier under `_p`. */
  function GetWorkspace(config: Option<Doc>, key: Option<string>): (r: Outcome<Doc>)
    ensures !WorkspaceFound(config) ==> r == NotFound
    ensures r.Ok? ==>
              && Authenticate(config, key, {AdminRole, ViewRole}).Ok?
              && "metadata" in config.value && config.value["metadata"].JObj?
    ensures r.Ok? ==>
              var tier := Authenticate(config, key, {AdminRole, ViewRole}).value;
              var md := config.value["metadata"].fields;
              && "_p" in r.value && r.value["_p"] == JNum(tier)
              && (forall k :: k in r.value && k != "_p" ==> k in md && r.value[k] == md[k])
              && (forall k :: k in md && (tier == PRIVILEGE_ADMIN || !IsPrivate(k)) ==> k in r.value)
              && (tier < PRIVILEGE_ADMIN ==> forall k :: k in r.value ==> !IsPrivate(k))
    ensures (&& Authenticate(config, key, {AdminRole, ViewRole}).Ok?
             && "metadata" in config.value && config.value["metadata"].JObj?) ==> r.Ok?
  {
    var auth := Authenticate(config, key, {AdminRole, ViewRole});
    if !auth.Ok? then auth.Propagate()
    else if "metadata" !in config.value then Error
    else
      match Sanitize(config.value["metadata"], auth.value < PRIVILEGE_ADMIN)
      case Ok(JObj(ret)) =>
        assert !IsPrivate("_p");
        Ok(ret["_p" := JNum(auth.value)])
      case _ => Error
  }

  /** update_workspace: the admin key replaces the workspace's `metadata` field and
      nothing else. */
  method UpdateWorkspace(db: Database, ws: string, key: Option<string>, metadata: Json) returns (r: Outcome<Done>)
    modifies db
    ensures var auth := Authenticate(Lookup(old(db.docs), WorkspaceRef(ws)), key, {AdminRole});
            && (auth.Ok? ==>
                  && r == Ok(Done)
                  && db.docs == old(db.docs)[WorkspaceRef(ws) := old(db.docs)[WorkspaceRef(ws)]["metadata" := metadata]])
            && (!auth.Ok? ==> r == auth.Propagate() && db.docs == old(db.docs))
  {
    var auth := Authenticate(Lookup(db.docs, WorkspaceRef(ws)), key, {AdminRole});
    if !auth.Ok? {
      return auth.Propagate();
    }
    db.UpdateField(WorkspaceRef(ws), "metadata", metadata);
    return Ok(Done);
  }

  /** What update_workspace writes is what get_workspace reads back: all of it for the
      admin key and its public part for any other key. */
  lemma WorkspaceRoundTrip(config: Doc, adminKey: Option<string>, otherKey: Option<string>, metadata: Doc)
    requires Authenticate(Some(config), adminKey, {AdminRole}).Ok?
    requires KeyValue(otherKey) != config["key"]
    ensures var updated := config["metadata" := JObj(metadata)];
            && GetWorkspace(Some(updated), adminKey) == Ok(metadata["_p" := JNum(PRIVILEGE_ADMIN)])
            && GetWorkspace(Some(updated), otherKey) == Ok(StripPrivate(metadata)["_p" := JNum(PRIVILEGE_PUBLIC)])
  {
    var updated := config["metadata" := JObj(metadata)];
    assert WorkspaceFound(Some(updated));
    assert Authenticate(Some(updated), adminKey, {AdminRole, ViewRole}) == Ok(PRIVILEGE_ADMIN);
    assert Authenticate(Some(updated), otherKey, {AdminRole, ViewRole}) == Ok(PRIVILEGE_PUBLIC);
  }

  // ---------------------------------------------------------------------------
  // get_item

  /** get_item: a missing or empty item is not found; a supplied item key must match
      and sets PRIVATE_KEY tier; a hidden item is refused. */
  function GetItem(config: Option<Doc>, item: Option<Doc>, key: Option<string>, itemKey: Option<string>): (r: Outcome<Doc>)
    ensures !WorkspaceFound(config) ==> r == NotFound
    ensures Authenticate(config, key, {AdminRole, ViewRole}).Ok? && (item.None? || item.value == map[]) ==> r == NotFound
    ensures (&& Authenticate(config, key, {AdminRole, ViewRole}).Ok?
             && ItemKeySupplied(itemKey) && item.Some? && item.value != map[] && "key" in item.value
             && item.value["key"] != JStr(itemKey.value)) ==> r == Forbidden
    ensures r.Ok? ==>
              && Authenticate(config, key, {AdminRole, ViewRole}).Ok?
              && item.Some? && item.value != map[]
              && "_p" in r.value && r.value["_p"].JNum?
    ensures r.Ok? && ItemKeySupplied(itemKey) ==>
              && "key" in item.value && item.value["key"] == JStr(itemKey.value)
              && r.value["_p"] == JNum(PRIVILEGE_PRIVATE_KEY)
    ensures r.Ok? && !ItemKeySupplied(itemKey) ==>
              r.value["_p"] == JNum(Authenticate(config, key, {AdminRole, ViewRole}).value)
    ensures r.Ok? && r.value["_p"] != JNum(PRIVILEGE_ADMIN) ==> ItemsQuery.HidesPrivate(r.value, r.value["_p"].n)
    ensures r.Ok? ==> ProcessItem(item.value, r.value["_p"].n) == Ok(View(r.value))
    ensures var auth := Authenticate(config, key, {AdminRole, ViewRole});
            auth.Ok? && item.Some? && item.value != map[] ==>
              var tier := ItemKeyOverride(item, itemKey, auth.value);
              && (!tier.Ok? ==> r == tier.Propagate())
              && (tier.Ok? ==>
                    var p := ProcessItem(item.value, tier.value);
                    && (p == Ok(Hidden) ==> r == Forbidden)
                    && (p.Ok? && p.value.View? ==> r == Ok(p.value.fields))
                    && (!p.Ok? ==> r == Error))
  {
    var auth := Authenticate(config, key, {AdminRole, ViewRole});
    if !auth.Ok? then auth.Propagate()
    else if item.None? || item.value == map[] then NotFound
    else
      var tier := ItemKeyOverride(item, itemKey, auth.value);
      if !tier.Ok? then tier.Propagate()
      else
        match ProcessItem(item.value, tier.value)
        case Ok(View(v)) =>
          assert tier.value < PRIVILEGE_ADMIN ==> ItemsQuery.HidesPrivate(v, tier.value);
          Ok(v)
        case Ok(Hidden) => Forbidden
        case _ => Error
  }

  /** The holder of an item's key reads the item's whole user group, private keys
      included, whatever the workspace key says. */
  lemma ItemKeyHolderReadsUserGroup(config: Doc, item: Doc, key: Option<string>, itemKey: string, user: Doc)
    requires config != map[] && "key" in config
    requires itemKey != "" && "key" in item && item["key"] == JStr(itemKey)
    requires "user" in item && item["user"] == JObj(user) && user != map[]
    requires FlagsReadable(item) && !DeletedFlag(item)
    ensures GetItem(Some(config), Some(item), key, Some(itemKey)).Ok?
    ensures GetItem(Some(config), Some(item), key, Some(itemKey)).value["user"] == JObj(user)
  {
    var auth := Authenticate(Some(config), key, {AdminRole, ViewRole});
    assert auth.Ok?;
    assert ItemKeyOverride(Some(item), Some(itemKey), auth.value) == Ok(PRIVILEGE_PRIVATE_KEY);
  }

  // ---------------------------------------------------------------------------
  // update_item

  /** What update_item writes: one top-level group of the item and its new value. */
  datatype Write = Write(group: string, fields: Doc)

  /** The request body after sanitize_metadata, the geocoding merge and the
      `updated_at` stamp. A body that is not a dictionary fails on the first
      dictionary operation applied to it. */
  function PreparePayload(payload: Json, privilege: int, geocoder: Json -> Geocoding.Response, now: string): (r: Outcome<Doc>)
    ensures !payload.JObj? ==> r == Error
    ensures !r.Ok? ==> r == Error
    ensures payload.JObj? && "address" !in payload.fields ==> r.Ok?
    ensures r.Ok? ==>
              && payload.JObj?
              && "updated_at" in r.value && r.value["updated_at"] == JStr(now)
              && (forall k :: (&& k in payload.fields && k != "updated_at" && k !in Geocoding.FRAGMENT_KEYS
                               && (privilege >= PRIVILEGE_PRIVATE_KEY || !IsPrivate(k))) ==>
                      k in r.value && r.value[k] == payload.fields[k])
              && (forall k :: k in r.value ==>
                    k == "updated_at" || k in Geocoding.FRAGMENT_KEYS || k in payload.fields)
              && (privilege < PRIVILEGE_PRIVATE_KEY ==>
                    forall k :: k in r.value && IsPrivate(k) ==> k == Geocoding.STATUS_KEY)
    ensures r.Ok? && "address" in payload.fields && (privilege >= PRIVILEGE_PRIVATE_KEY || !IsPrivate("address")) ==>
              Geocoding.STATUS_KEY in r.value
  {
    assert forall k :: k in Geocoding.FRAGMENT_KEYS && k != Geocoding.STATUS_KEY ==> !IsPrivate(k) by {
      PublicKey("lat");
      PublicKey("lng");
      PublicKey("formatted_address");
      PublicKey("city");
    }
    PublicKey("updated_at");
    match Sanitize(payload, privilege < PRIVILEGE_PRIVATE_KEY)
    case Ok(JObj(md)) =>
      if "address" in md then
        match Geocoding.Fragment(geocoder(md["address"]))
        case Ok(fragment) => Ok((md + fragment)["updated_at" := JStr(now)])
        case _ => Error
      else
        Ok(md["updated_at" := JStr(now)])
    case _ => Error
  }

  /** An address in the body is geocoded: the body is prepared exactly when the
      provider's response yields a fragment, and every field of that fragment is in the
      prepared body with the fragment's value. */
  lemma PreparePayloadGeocodes(payload: Json, privilege: int, geocoder: Json -> Geocoding.Response, now: string)
    requires payload.JObj? && "address" in payload.fields
    ensures var fragment := Geocoding.Fragment(geocoder(payload.fields["address"]));
            var r := PreparePayload(payload, privilege, geocoder, now);
            && (r.Ok? <==> fragment.Ok?)
            && (r.Ok? ==> forall k :: k in fragment.value ==> k in r.value && r.value[k] == fragment.value[k])
  {
    PublicKey("address");
    PublicKey("updated_at");
    var md := Sanitize(payload, privilege < PRIVILEGE_PRIVATE_KEY).value.fields;
    assert "address" in md && md["address"] == payload.fields["address"];
  }

  /** `item.setdefault(group, {}).update(metadata)`: an absent group starts empty; a
      stored group that is not a dictionary has no `update`. */
  function MergeGroup(item: Doc, group: string, metadata: Doc): (r: Outcome<Doc>)
    ensures group in item && !item[group].JObj? ==> r == Error
    ensures !(group in item && !item[group].JObj?) ==>
              r == Ok(MergeFields(if group in item then Some(item[group].fields) else None, metadata))
  {
    if group !in item then Ok(MergeFields(None, metadata))
    else if item[group].JObj? then Ok(MergeFields(Some(item[group].fields), metadata))
    else Error
  }

  /** The tier update_item acts at: the workspace key's tier, overridden by a matching
      item key. */
  function UpdateTier(config: Option<Doc>, item: Option<Doc>, key: Option<string>, itemKey: Option<string>): (r: Outcome<int>)
    ensures r.Ok? ==> r.value == PRIVILEGE_ADMIN || r.value == PRIVILEGE_PRIVATE_KEY || r.value == PRIVILEGE_PUBLIC
    ensures r.Ok? && ItemKeySupplied(itemKey) ==> r.value == PRIVILEGE_PRIVATE_KEY
    ensures r.Ok? && !ItemKeySupplied(itemKey) ==> r == Authenticate(config, key, {AdminRole, ViewRole})
    ensures !WorkspaceFound(config) ==> r == NotFound
  {
    var auth := Authenticate(config, key, {AdminRole, ViewRole});
    if !auth.Ok? then auth.Propagate() else ItemKeyOverride(item, itemKey, auth.value)
  }

  /** `item.setdefault('info', {}).update(...)` succeeds: `info` is absent or a
      dictionary. */
  predicate InfoMergeable(item: Doc)
  {
    "info" !in item || item["info"].JObj?
  }

  /** The group a tier of at least PRIVATE_KEY writes. */
  function WriteGroup(tier: int): string
  {
    if tier > PRIVILEGE_PRIVATE_KEY then "admin" else "user"
  }

  /** update_item up to the write: ADMIN tier merges the body into the admin group,
      PRIVATE_KEY tier into the user group, and a PUBLIC caller is refused after the
      body has been prepared. `item.setdefault('info', ...)` fails on a missing item or
      a stored `info` that is not a dictionary. */
  function UpdatePlan(
    config: Option<Doc>, item: Option<Doc>, key: Option<string>, itemKey: Option<string>,
    payload: Json, geocoder: Json -> Geocoding.Response, now: string): (r: Outcome<Write>)
    ensures !WorkspaceFound(config) ==> r == NotFound
    ensures r.Ok? ==>
              var tier := UpdateTier(config, item, key, itemKey);
              && tier.Ok? && item.Some?
              && (r.value.group == "admin" <==> tier.value == PRIVILEGE_ADMIN)
              && (r.value.group == "user" <==> tier.value == PRIVILEGE_PRIVATE_KEY)
              && PreparePayload(payload, tier.value, geocoder, now).Ok?
              && Ok(r.value.fields) == MergeGroup(item.value, r.value.group, PreparePayload(payload, tier.value, geocoder, now).value)
    ensures r.Ok? ==> "updated_at" in r.value.fields && r.value.fields["updated_at"] == JStr(now)
    ensures UpdateTier(config, item, key, itemKey) == Ok(PRIVILEGE_PUBLIC) ==> !r.Ok?
    ensures item.None? && UpdateTier(config, item, key, itemKey).Ok? ==> r == Error
    ensures !UpdateTier(config, item, key, itemKey).Ok? ==> r == UpdateTier(config, item, key, itemKey).Propagate()
    ensures UpdateTier(config, item, key, itemKey).Ok? && item.Some? && !InfoMergeable(item.value) ==> r == Error
    ensures var tier := UpdateTier(config, item, key, itemKey);
            tier.Ok? && item.Some? && InfoMergeable(item.value) ==>
              var md := PreparePayload(payload, tier.value, geocoder, now);
              && (!md.Ok? ==> r == Error)
              && (md.Ok? && tier.value == PRIVILEGE_PUBLIC ==> r == Forbidden)
              && (md.Ok? && tier.value >= PRIVILEGE_PRIVATE_KEY ==>
                    var merged := MergeGroup(item.value, WriteGroup(tier.value), md.value);
                    && (merged.Ok? ==> r == Ok(Write(WriteGroup(tier.value), merged.value)))
                    && (!merged.Ok? ==> r == Error))
  {
    var tier := UpdateTier(config, item, key, itemKey);
    if !tier.Ok? then tier.Propagate()
    else if item.None? then Error
    else if !InfoMergeable(item.value) then Error
    else
      match PreparePayload(payload, tier.value, geocoder, now)
      case Ok(md) =>
        if tier.value > PRIVILEGE_PRIVATE_KEY then
          match MergeGroup(item.value, "admin", md)
          case Ok(g) => Ok(Write("admin", g))
          case _ => Error
        else if tier.value == PRIVILEGE_PRIVATE_KEY then
          match MergeGroup(item.value, "user", md)
          case Ok(g) => Ok(Write("user", g))
          case _ => Error
        else Forbidden
      case _ => Error
  }

  /** update_item: the planned group is written with `item_ref.update` and returned;
      every other outcome leaves the store as it was. */
  method UpdateItem(
    db: Database, ws: string, itemId: string, key: Option<string>, itemKey: Option<string>,
    payload: Json, geocoder: Json -> Geocoding.Response, now: string) returns (r: Outcome<Doc>)
    modifies db
    ensures var ref := ItemRef(ws, itemId);
            var plan := UpdatePlan(Lookup(old(db.docs), WorkspaceRef(ws)), Lookup(old(db.docs), ref), key, itemKey, payload, geocoder, now);
            && (plan.Ok? ==>
                  && r == Ok(plan.value.fields)
                  && db.docs == old(db.docs)[ref := old(db.docs)[ref][plan.value.group := JObj(plan.value.fields)]])
            && (!plan.Ok? ==> r == plan.Propagate() && db.docs == old(db.docs))
  {
    var ref := ItemRef(ws, itemId);
    var plan := UpdatePlan(Lookup(db.docs, WorkspaceRef(ws)), Lookup(db.docs, ref), key, itemKey, payload, geocoder, now);
    if !plan.Ok? {
      return plan.Propagate();
    }
    db.UpdateField(ref, plan.value.group, JObj(plan.value.fields));
    return Ok(plan.value.fields);
  }

  /** After an item-key holder's update, a read with the same key returns the written
      user group. */
  lemma UpdateThenReadUserGroup(
    config: Doc, item: Doc, key: Option<string>, itemKey: string,
    payload: Json, geocoder: Json -> Geocoding.Response, now: string)
    requires itemKey != ""
    requires UpdatePlan(Some(config), Some(item), key, Some(itemKey), payload, geocoder, now).Ok?
    requires FlagsReadable(item) && !DeletedFlag(item)
    ensures var w := UpdatePlan(Some(config), Some(item), key, Some(itemKey), payload, geocoder, now).value;
            var stored := item[w.group := JObj(w.fields)];
            && w.group == "user"
            && GetItem(Some(config), Some(stored), key, Some(itemKey)).Ok?
            && GetItem(Some(config), Some(stored), key, Some(itemKey)).value["user"] == JObj(w.fields)
  {
    var w := UpdatePlan(Some(config), Some(item), key, Some(itemKey), payload, geocoder, now).value;
    var stored := item[w.group := JObj(w.fields)];
    assert "updated_at" in w.fields;
    assert FlagSource(stored) == FlagSource(item);
    ItemKeyHolderReadsUserGroup(config, stored, key, itemKey, w.fields);
  }

  /** After an admin update, an admin read returns the written admin group. */
  lemma UpdateThenReadAdminGroup(
    config: Doc, item: Doc, key: Option<string>,
    payload: Json, geocoder: Json -> Geocoding.Response, now: string)
    requires UpdatePlan(Some(config), Some(item), key, None, payload, geocoder, now).Ok?
    ensures var w := UpdatePlan(Some(config), Some(item), key, None, payload, geocoder, now).value;
            var stored := item[w.group := JObj(w.fields)];
            && w.group == "admin"
            && GetItem(Some(config), Some(stored), key, None) == Ok(stored["_p" := JNum(PRIVILEGE_ADMIN)])
            && stored["admin"] == JObj(w.fields)
  {
    var w := UpdatePlan(Some(config), Some(item), key, None, payload, geocoder, now).value;
    var stored := item[w.group := JObj(w.fields)];
    assert stored != map[] by { assert w.group in stored; }
  }

  // ---------------------------------------------------------------------------
  // delete_item and delete_items

  /** delete_item: the admin key deletes an item unless it has official records; a
      missing item has no `.get` and fails. */
  function DeleteVerdict(config: Option<Doc>, key: Option<string>, item: Option<Doc>): (r: Outcome<Done>)
    ensures r.Ok? <==>
              Authenticate(config, key, {AdminRole}) == Ok(PRIVILEGE_ADMIN) && item.Some? && !Truthy(Get(item.value, "official"))
    ensures Authenticate(config, key, {AdminRole}).Ok? && item.Some? && Truthy(Get(item.value, "official")) ==> r == Forbidden
    ensures Authenticate(config, key, {AdminRole}).Ok? && item.None? ==> r == Error
    ensures !Authenticate(config, key, {AdminRole}).Ok? ==> r == Authenticate(config, key, {AdminRole}).Propagate()
  {
    var auth := Authenticate(config, key, {AdminRole});
    if !auth.Ok? then auth.Propagate()
    else if item.None? then Error
    else if Truthy(Get(item.value, "official")) then Forbidden
    else Ok(Done)
  }

  method DeleteItem(db: Database, ws: string, itemId: string, key: Option<string>) returns (r: Outcome<Done>)
    modifies db
    ensures var ref := ItemRef(ws, itemId);
            var verdict := DeleteVerdict(Lookup(old(db.docs), WorkspaceRef(ws)), key, Lookup(old(db.docs), ref));
            && r == verdict
            && (r.Ok? ==> db.docs == old(db.docs) - {ref})
            && (!r.Ok? ==> db.docs == old(db.docs))
  {
    var ref := ItemRef(ws, itemId);
    r := DeleteVerdict(Lookup(db.docs, WorkspaceRef(ws)), key, Lookup(db.docs, ref));
    if r.Ok? {
      db.Delete(ref);
    }
  }

  /** The documents delete_items removes: items of the workspace whose id does not
      start with a dot. */
  predicate Removable(ref: DocRef, ws: string)
  {
    ref.collection == ItemsCollection(ws) && ref.id != [] && ref.id[0] != '.'
  }

  /** `doc.id[0]` raises on an empty document id. */
  predicate IdsIndexable(docs: Docs, ws: string)
  {
    forall ref :: ref in docs && ref.collection == ItemsCollection(ws) ==> ref.id != []
  }

  /** The store with the removable documents among `among` gone. */
  function PruneAmong(docs: Docs, ws: string, among: set<DocRef>): (r: Docs)
    ensures forall ref :: ref in r <==> ref in docs && !(ref in among && Removable(ref, ws))
    ensures forall ref :: ref in r ==> r[ref] == docs[ref]
  {
    map ref | ref in docs && !(ref in among && Removable(ref, ws)) :: docs[ref]
  }

  lemma PruneAmongStep(docs: Docs, ws: string, among: set<DocRef>, ref: DocRef)
    requires ref.collection == ItemsCollection(ws) && ref.id != []
    ensures ref.id[0] != '.' ==> PruneAmong(docs, ws, among + {ref}) == PruneAmong(docs, ws, among) - {ref}
    ensures ref.id[0] == '.' ==> PruneAmong(docs, ws, among + {ref}) == PruneAmong(docs, ws, among)
  {
    if ref.id[0] != '.' {
      assert PruneAmong(docs, ws, among + {ref}).Keys == PruneAmong(docs, ws, among).Keys - {ref};
    } else {
      assert PruneAmong(docs, ws, among + {ref}).Keys == PruneAmong(docs, ws, among).Keys;
    }
  }

  /** The store after delete_items. */
  function Pruned(docs: Docs, ws: string): (r: Docs)
    ensures forall ref :: ref in r <==> ref in docs && !Removable(ref, ws)
    ensures forall ref :: ref in r ==> r[ref] == docs[ref]
  {
    PruneAmong(docs, ws, docs.Keys)
  }

  lemma PruneAmongCovers(docs: Docs, ws: string, among: set<DocRef>)
    requires forall ref :: ref in docs && ref.collection == ItemsCollection(ws) ==> ref in among
    ensures PruneAmong(docs, ws, among) == Pruned(docs, ws)
  {
    assert PruneAmong(docs, ws, among).Keys == Pruned(docs, ws).Keys;
  }

  /** Pruning twice is pruning once: repeating delete_items removes nothing more. */
  lemma PrunedIdempotent(docs: Docs, ws: string)
    ensures Pruned(Pruned(docs, ws), ws) == Pruned(docs, ws)
  {
    var once := Pruned(docs, ws);
    assert Pruned(once, ws).Keys == once.Keys;
  }

  /** One document of the bulk-delete stream: removed unless its id starts with a dot. */
  method DeleteIfRemovable(db: Database, ws: string, ref: DocRef, ghost start: Docs, ghost done: set<DocRef>)
    requires ref.collection == ItemsCollection(ws) && ref.id != []
    requires db.docs == PruneAmong(start, ws, done)
    modifies db
    ensures db.docs == PruneAmong(start, ws, done + {ref})
  {
    PruneAmongStep(start, ws, done, ref);
    if ref.id[0] != '.' {
      db.Delete(ref);
    }
  }

  /** delete_items: the admin key deletes, in stream order, every item whose id does
      not start with a dot; a document outside the workspace's items, or with a dotted
      id, is never touched. */
  method DeleteItems(db: Database, ws: string, key: Option<string>) returns (r: Outcome<Done>)
    modifies db
    ensures var auth := Authenticate(Lookup(old(db.docs), WorkspaceRef(ws)), key, {AdminRole});
            && (!auth.Ok? ==> r == auth.Propagate() && db.docs == old(db.docs))
            && (auth.Ok? && IdsIndexable(old(db.docs), ws) ==> r == Ok(Done) && db.docs == Pruned(old(db.docs), ws))
            && (auth.Ok? && !IdsIndexable(old(db.docs), ws) ==> r == Error)
    ensures forall ref :: ref in db.docs ==> ref in old(db.docs) && db.docs[ref] == old(db.docs)[ref]
    ensures forall ref :: ref in old(db.docs) && ref !in db.docs ==> Removable(ref, ws)
  {
    var auth := Authenticate(Lookup(db.docs, WorkspaceRef(ws)), key, {AdminRole});
    if !auth.Ok? {
      return auth.Propagate();
    }
    ghost var start := db.docs;
    var stream := set ref | ref in db.docs && ref.collection == ItemsCollection(ws);
    var pending := stream;
    ghost var done: set<DocRef> := {};
    while pending != {}
      invariant pending <= stream && done == stream - pending
      invariant db.docs == PruneAmong(start, ws, done)
      invariant forall ref :: ref in stream && ref.id == [] ==> ref in pending
      decreases |pending|
    {
      var ref :| ref in pending;
      if ref.id == [] {
        return Error;
      }
      DeleteIfRemovable(db, ws, ref, start, done);
      assert stream - (pending - {ref}) == done + {ref} by {
        assert ref in stream - done;
      }
      pending := pending - {ref};
      done := done + {ref};
    }
    PruneAmongCovers(start, ws, stream);
    return Ok(Done);
  }
}
