/** Privilege tiers, the caller-key decision and the tier-specific read projection of
    an item (functions/api/__init__.py: authenticate, sanitize_metadata, process_item
    and the item-key override shared by get_item and update_item). */
module Privilege {
  import opened Values

  /** Tiers are plain integers compared with `<`, `>` and `==`; the gap between 0 and 3
      is the source's own. */
  const PRIVILEGE_PUBLIC: int := 0
  const PRIVILEGE_PRIVATE_KEY: int := 3
  const PRIVILEGE_ADMIN: int := 4

  const PRIVATE_PREFIX: string := "_private_"
  const DELETED_FLAG: string := PRIVATE_PREFIX + "deleted"
  const PUBLICATION_FLAG: string := PRIVATE_PREFIX + "app_publication"

  predicate IsPrivate(k: string)
  {
    StartsWith(k, PRIVATE_PREFIX)
  }

  /** A key that does not begin with an underscore is public. */
  lemma PublicKey(k: string)
    requires k == [] || k[0] != '_'
    ensures !IsPrivate(k)
  {
    if |PRIVATE_PREFIX| <= |k| {
      assert k[..|PRIVATE_PREFIX|][0] != PRIVATE_PREFIX[0];
    }
  }

  /** The dictionary comprehension of sanitize_metadata. */
  function StripPrivate(m: Doc): (r: Doc)
    ensures forall k :: k in r <==> k in m && !IsPrivate(k)
    ensures forall k :: k in r ==> r[k] == m[k]
  {
    map k | k in m && !IsPrivate(k) :: m[k]
  }

  /** sanitize_metadata(metadata, exclude_private). A truthy value that is not a
      dictionary has no `.items()` and raises. */
  function Sanitize(metadata: Json, excludePrivate: bool): (r: Outcome<Json>)
    ensures !excludePrivate || !Truthy(metadata) ==> r == Ok(metadata)
    ensures excludePrivate && Truthy(metadata) && !metadata.JObj? ==> r == Error
    ensures excludePrivate && metadata.JObj? ==>
              && r.Ok? && r.value.JObj?
              && (forall k :: k in r.value.fields <==> k in metadata.fields && !IsPrivate(k))
              && (forall k :: k in r.value.fields ==> r.value.fields[k] == metadata.fields[k])
  {
    if Truthy(metadata) && excludePrivate then
      if metadata.JObj? then Ok(JObj(StripPrivate(metadata.fields))) else Error
    else
      Ok(metadata)
  }

  lemma StripPrivateIdempotent(m: Doc)
    ensures StripPrivate(StripPrivate(m)) == StripPrivate(m)
  {
    var once := StripPrivate(m);
    assert forall k :: k in StripPrivate(once) <==> k in once;
  }

  /** Sanitizing twice is sanitizing once. */
  lemma SanitizeIdempotent(metadata: Json)
    requires Sanitize(metadata, true).Ok?
    ensures Sanitize(Sanitize(metadata, true).value, true) == Sanitize(metadata, true)
  {
    if Truthy(metadata) {
      StripPrivateIdempotent(metadata.fields);
    }
  }

  datatype Role = AdminRole | ViewRole

  /** The `Authorization` header as the comparison `key == config["key"]` sees it. */
  function KeyValue(key: Option<string>): Json
  {
    match key
    case None => JNull
    case Some(k) => JStr(k)
  }

  /** `if not config`: a missing or empty workspace document is not found. */
  predicate WorkspaceFound(config: Option<Doc>)
  {
    config.Some? && config.value != map[]
  }

  /** authenticate(workspace, key, required_roles), once the workspace document
      `c/<workspace>` has been read. */
  function Authenticate(config: Option<Doc>, key: Option<string>, roles: set<Role>): (r: Outcome<int>)
    ensures r == NotFound <==> !WorkspaceFound(config)
    ensures r == Error <==> WorkspaceFound(config) && AdminRole in roles && "key" !in config.value
    ensures r == Ok(PRIVILEGE_ADMIN) <==>
              WorkspaceFound(config) && AdminRole in roles && "key" in config.value && config.value["key"] == KeyValue(key)
    ensures r == Ok(PRIVILEGE_PUBLIC) <==>
              && WorkspaceFound(config) && ViewRole in roles
              && (AdminRole in roles ==> "key" in config.value && config.value["key"] != KeyValue(key))
    ensures r == Forbidden <==>
              && WorkspaceFound(config) && ViewRole !in roles
              && (AdminRole in roles ==> "key" in config.value && config.value["key"] != KeyValue(key))
    ensures r.Ok? ==> r.value == PRIVILEGE_ADMIN || r.value == PRIVILEGE_PUBLIC
  {
    if !WorkspaceFound(config) then NotFound
    else if AdminRole in roles && "key" !in config.value then Error
    else if AdminRole in roles && config.value["key"] == KeyValue(key) then Ok(PRIVILEGE_ADMIN)
    else if ViewRole in roles then Ok(PRIVILEGE_PUBLIC)
    else Forbidden
  }

  /** `if item_key:` — an absent or empty `item-key` argument changes nothing. */
  predicate ItemKeySupplied(itemKey: Option<string>)
  {
    itemKey.Some? && itemKey.value != ""
  }

  /** The item-key override of get_item and update_item: a supplied item key must equal
      the item's stored `key`, and then the tier becomes exactly PRIVATE_KEY. */
  function ItemKeyOverride(item: Option<Doc>, itemKey: Option<string>, privilege: int): (r: Outcome<int>)
    ensures !ItemKeySupplied(itemKey) ==> r == Ok(privilege)
    ensures ItemKeySupplied(itemKey) && r.Ok? ==> r.value == PRIVILEGE_PRIVATE_KEY
    ensures ItemKeySupplied(itemKey) ==>
              (r.Ok? <==> item.Some? && "key" in item.value && item.value["key"] == JStr(itemKey.value))
    ensures ItemKeySupplied(itemKey) && item.Some? && "key" in item.value && item.value["key"] != JStr(itemKey.value) ==>
              r == Forbidden
    ensures ItemKeySupplied(itemKey) && (item == None || item == Some(map[])) ==> r == Forbidden
    ensures r == Error <==> ItemKeySupplied(itemKey) && item.Some? && item.value != map[] && "key" !in item.value
  {
    if !ItemKeySupplied(itemKey) then Ok(privilege)
    else if item.None? || item.value == map[] then Forbidden
    else if "key" !in item.value then Error
    else if item.value["key"] != JStr(itemKey.value) then Forbidden
    else Ok(PRIVILEGE_PRIVATE_KEY)
  }

  /** What process_item returns: `None` (hidden) or a view. */
  datatype Projection = Hidden | View(fields: Doc)

  /** `item.get('admin', {})`, the dictionary both hiding flags are read from. */
  function FlagSource(item: Doc): Json
  {
    if "admin" in item then item["admin"] else JObj(map[])
  }

  /** The flags can be read: `.get` exists only on a dictionary. */
  predicate FlagsReadable(item: Doc)
  {
    FlagSource(item).JObj?
  }

  predicate DeletedFlag(item: Doc)
  {
    FlagsReadable(item) && Truthy(Get(FlagSource(item).fields, DELETED_FLAG))
  }

  /** `... .get('_private_app_publication') is False`: only the boolean false counts. */
  predicate Unpublished(item: Doc)
  {
    FlagsReadable(item) && Get(FlagSource(item).fields, PUBLICATION_FLAG) == JBool(false)
  }

  /** The fields of a group when it is a dictionary, none otherwise. */
  function GroupFields(item: Doc, group: string): (r: Doc)
    ensures group in item && item[group].JObj? ==> r == item[group].fields
    ensures !(group in item && item[group].JObj?) ==> r == map[]
  {
    if group in item && item[group].JObj? then item[group].fields else map[]
  }

  /** The view built below ADMIN tier, `_p` included. */
  function TierView(user: Json, admin: Json, item: Doc, privilege: int): (v: Doc)
    ensures v.Keys == {"user", "admin", "info", "official", "_p"}
    ensures v["user"] == user && v["admin"] == admin && v["_p"] == JNum(privilege)
    ensures v["info"] == Or(Get(item, "info"), JObj(map[]))
    ensures v["official"] == Or(Get(item, "official"), JArr([]))
  {
    map["user" := user, "admin" := admin,
        "info" := Or(Get(item, "info"), JObj(map[])),
        "official" := Or(Get(item, "official"), JArr([])),
        "_p" := JNum(privilege)]
  }

  /** process_item(item, privilege). Above PRIVATE_KEY the whole item is returned, with
      `_p` added. Below it the deleted flag hides the item, and below PRIVATE_KEY so does
      an explicit false publication flag; visible items get a four-group view. */
  function ProcessItem(item: Doc, privilege: int): (r: Outcome<Projection>)
    ensures privilege > PRIVILEGE_PRIVATE_KEY ==> r == Ok(View(item["_p" := JNum(privilege)]))
    ensures r.Ok? && r.value.View? ==> "_p" in r.value.fields && r.value.fields["_p"] == JNum(privilege)
    ensures privilege <= PRIVILEGE_PRIVATE_KEY ==>
              (r == Error <==>
                 || !FlagsReadable(item)
                 || (&& privilege < PRIVILEGE_PRIVATE_KEY && !DeletedFlag(item) && !Unpublished(item)
                     && Truthy(Get(item, "user")) && !Get(item, "user").JObj?))
    ensures privilege <= PRIVILEGE_PRIVATE_KEY && r.Ok? ==>
              (r.value.Hidden? <==> DeletedFlag(item) || (privilege < PRIVILEGE_PRIVATE_KEY && Unpublished(item)))
    ensures privilege <= PRIVILEGE_PRIVATE_KEY && r.Ok? && r.value.View? ==>
              && r.value.fields.Keys == {"user", "admin", "info", "official", "_p"}
              && r.value.fields["admin"] == JObj(StripPrivate(GroupFields(item, "admin")))
              && r.value.fields["info"] == Or(Get(item, "info"), JObj(map[]))
              && r.value.fields["official"] == Or(Get(item, "official"), JArr([]))
    ensures privilege == PRIVILEGE_PRIVATE_KEY && r.Ok? && r.value.View? ==>
              r.value.fields["user"] == Or(Get(item, "user"), JObj(map[]))
    ensures privilege < PRIVILEGE_PRIVATE_KEY && r.Ok? && r.value.View? ==>
              r.value.fields["user"] == JObj(StripPrivate(GroupFields(item, "user")))
  {
    if privilege > PRIVILEGE_PRIVATE_KEY then
      Ok(View(item["_p" := JNum(privilege)]))
    else if !FlagSource(item).JObj? then
      Error
    else if Truthy(Get(FlagSource(item).fields, DELETED_FLAG)) then
      Ok(Hidden)
    else if privilege == PRIVILEGE_PRIVATE_KEY then
      var admin := Sanitize(Get(item, "admin"), privilege < PRIVILEGE_ADMIN);
      assert admin.Ok? && Or(admin.value, JObj(map[])) == JObj(StripPrivate(GroupFields(item, "admin")));
      Ok(View(TierView(Or(Get(item, "user"), JObj(map[])), Or(admin.value, JObj(map[])), item, privilege)))
    else if Get(FlagSource(item).fields, PUBLICATION_FLAG) == JBool(false) then
      Ok(Hidden)
    else
      match Sanitize(Get(item, "user"), privilege < PRIVILEGE_PRIVATE_KEY)
      case Ok(user) =>
        var admin := Sanitize(Get(item, "admin"), privilege < PRIVILEGE_ADMIN);
        assert admin.Ok? && Or(admin.value, JObj(map[])) == JObj(StripPrivate(GroupFields(item, "admin")));
        assert Or(user, JObj(map[])) == JObj(StripPrivate(GroupFields(item, "user")));
        Ok(View(TierView(Or(user, JObj(map[])), Or(admin.value, JObj(map[])), item, privilege)))
      case _ => Error
  }

  /** Below ADMIN tier no private admin key is ever shown, and below PRIVATE_KEY tier no
      private user key either. */
  lemma NoPrivateKeysBelowAdmin(item: Doc, privilege: int, v: Doc, k: string)
    requires privilege < PRIVILEGE_ADMIN
    requires ProcessItem(item, privilege) == Ok(View(v))
    requires IsPrivate(k)
    ensures && v["admin"].JObj? && k !in v["admin"].fields
            && (privilege < PRIVILEGE_PRIVATE_KEY ==> v["user"].JObj? && k !in v["user"].fields)
  {
  }

  /** An item whose admin group sets the deleted flag is hidden from PRIVATE_KEY and
      PUBLIC callers and shown in full to ADMIN. */
  lemma DeletedItemsHiddenBelowAdmin(item: Doc, privilege: int)
    requires "admin" in item && item["admin"].JObj?
    requires Truthy(Get(item["admin"].fields, DELETED_FLAG))
    ensures privilege <= PRIVILEGE_PRIVATE_KEY ==> ProcessItem(item, privilege) == Ok(Hidden)
    ensures privilege == PRIVILEGE_ADMIN ==> ProcessItem(item, privilege) == Ok(View(item["_p" := JNum(PRIVILEGE_ADMIN)]))
  {
  }

  /** An explicitly unpublished item is hidden from PUBLIC callers only. */
  lemma UnpublishedHiddenFromPublicOnly(item: Doc)
    requires "admin" in item && item["admin"].JObj?
    requires !Truthy(Get(item["admin"].fields, DELETED_FLAG))
    requires Get(item["admin"].fields, PUBLICATION_FLAG) == JBool(false)
    ensures ProcessItem(item, PRIVILEGE_PUBLIC) == Ok(Hidden)
    ensures ProcessItem(item, PRIVILEGE_PRIVATE_KEY).Ok? && ProcessItem(item, PRIVILEGE_PRIVATE_KEY).value.View?
    ensures ProcessItem(item, PRIVILEGE_ADMIN).Ok? && ProcessItem(item, PRIVILEGE_ADMIN).value.View?
  {
  }
}
