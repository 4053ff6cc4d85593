/** The per-row ingestion stages of functions/process_data/__init__.py: aliases are
    rewritten to canonical city names, rows of unknown cities are dropped, every row
    gets a city slug and an id slug (both drawn from one set of taken slugs, a clash
    aborting the run), and every row is merged into the store under
    `<city-slug>/<id-slug>`, the city's `.config` document being created on the first
    row for that slug. `slugify.slugify`, the MD5 hex digest and the UUIDs are inputs. */
module Ingestion {
  import opened Values
  import opened Store

  // ---------------------------------------------------------------------------
  // The alias table

  /** One row of city_names.csv: the canonical name and its `option1..option3`
      columns, an empty or missing cell being the empty string. */
  datatype CityEntry = CityEntry(city: string, options: seq<string>)

  /** The inner loop over one row's options: every non-empty option maps to the row's
      city, a later option overriding an earlier equal one. */
  function AddOptions(table: map<string, string>, city: string, options: seq<string>): (r: map<string, string>)
    ensures forall a :: a in r <==> a in table || (a != "" && a in options)
    ensures forall a :: a != "" && a in options ==> r[a] == city
    ensures forall a :: a in table && !(a != "" && a in options) ==> r[a] == table[a]
    decreases |options|
  {
    if options == [] then table
    else
      var r := AddOptions(table, city, options[..|options| - 1]);
      assert forall a :: a in options <==> a in options[..|options| - 1] || a == options[|options| - 1];
      if options[|options| - 1] != "" then r[options[|options| - 1] := city] else r
  }

  /** `city_name_map` after the nested loops over the rows of city_names.csv. */
  function AliasTable(entries: seq<CityEntry>): (r: map<string, string>)
    ensures forall a :: a in r ==>
              a != "" && exists i :: 0 <= i < |entries| && a in entries[i].options && r[a] == entries[i].city
    decreases |entries|
  {
    if entries == [] then map[]
    else
      var last := entries[|entries| - 1];
      AddOptions(AliasTable(entries[..|entries| - 1]), last.city, last.options)
  }

  /** Every alias comes from a non-empty option cell of some row. */
  lemma {:induction false} AliasTableDomain(entries: seq<CityEntry>, a: string)
    ensures a in AliasTable(entries) <==> a != "" && exists i :: 0 <= i < |entries| && a in entries[i].options
    decreases |entries|
  {
    if entries != [] {
      var prefix := entries[..|entries| - 1];
      AliasTableDomain(prefix, a);
      if a != "" && (exists i :: 0 <= i < |entries| && a in entries[i].options) {
        var i :| 0 <= i < |entries| && a in entries[i].options;
        if i < |prefix| {
          assert prefix[i] == entries[i];
        }
      }
      if a != "" && (exists i :: 0 <= i < |prefix| && a in prefix[i].options) {
        var i :| 0 <= i < |prefix| && a in prefix[i].options;
        assert entries[i] == prefix[i];
      }
    }
  }

  /** An alias maps to the city of the last row that lists it. */
  lemma {:induction false} AliasTableLastWins(entries: seq<CityEntry>, i: int, a: string)
    requires 0 <= i < |entries| && a != "" && a in entries[i].options
    requires forall k :: i < k < |entries| ==> a !in entries[k].options
    ensures a in AliasTable(entries) && AliasTable(entries)[a] == entries[i].city
    decreases |entries|
  {
    var prefix := entries[..|entries| - 1];
    if i < |entries| - 1 {
      assert a !in entries[|entries| - 1].options;
      forall k | i < k < |prefix| ensures a !in prefix[k].options {
        assert prefix[k] == entries[k];
      }
      AliasTableLastWins(prefix, i, a);
    }
  }

  /** The nested loops of process_data that fill `city_name_map`. */
  method BuildAliasTable(entries: seq<CityEntry>) returns (table: map<string, string>)
    ensures table == AliasTable(entries)
  {
    table := map[];
    for i := 0 to |entries|
      invariant table == AliasTable(entries[..i])
    {
      assert entries[..i + 1][..i] == entries[..i];
      ghost var before := table;
      var options := entries[i].options;
      for j := 0 to |options|
        invariant table == AddOptions(before, entries[i].city, options[..j])
      {
        assert options[..j + 1][..j] == options[..j];
        if options[j] != "" {
          table := table[options[j] := entries[i].city];
        }
      }
      assert options[..|options|] == options;
    }
    assert entries[..|entries|] == entries;
  }

  /** `cities`: the canonical names, in file order. */
  function Cities(entries: seq<CityEntry>): (r: seq<string>)
    ensures |r| == |entries| && forall i :: 0 <= i < |entries| ==> r[i] == entries[i].city
  {
    seq(|entries|, i requires 0 <= i < |entries| => entries[i].city)
  }

  // ---------------------------------------------------------------------------
  // map_names and the whitelist

  /** The text of a string field, empty when the field is absent or not a string. */
  function Text(row: Doc, k: string): string
  {
    if k in row && row[k].JStr? then row[k].s else ""
  }

  /** map_names: a city that is an alias is replaced by its canonical name, in one
      step; nothing else changes. */
  function MapNames(row: Doc, aliases: map<string, string>): (r: Doc)
    requires "city" in row
    ensures r.Keys == row.Keys
    ensures forall k :: k in row && k != "city" ==> r[k] == row[k]
    ensures row["city"].JStr? && row["city"].s in aliases ==> r["city"] == JStr(aliases[row["city"].s])
    ensures !(row["city"].JStr? && row["city"].s in aliases) ==> r == row
  {
    var city := row["city"];
    if city.JStr? && city.s in aliases then row["city" := JStr(aliases[city.s])] else row
  }

  /** `row['city'] in cities`. */
  predicate Whitelisted(row: Doc, cities: seq<string>)
  {
    "city" in row && row["city"].JStr? && row["city"].s in cities
  }

  /** A renamed row passes the whitelist exactly when its name, read through the alias
      table once, is a canonical city. */
  lemma RenamedRowPasses(row: Doc, entries: seq<CityEntry>)
    requires "city" in row && row["city"].JStr?
    ensures var c := row["city"].s;
            var aliases := AliasTable(entries);
            Whitelisted(MapNames(row, aliases), Cities(entries)) <==>
              (if c in aliases then aliases[c] else c) in Cities(entries)
  {
  }

  // ---------------------------------------------------------------------------
  // Transliteration and slugs

  const ALEF: char := 'א'
  const AYIN: char := 'ע'
  const VAV: char := 'ו'

  /** `s.replace(from, to)` for single characters. */
  function Replace(s: string, from: char, to: char): (r: string)
    ensures |r| == |s|
    ensures forall i :: 0 <= i < |s| ==> r[i] == (if s[i] == from then to else s[i])
    decreases |s|
  {
    if s == [] then []
    else [if s[0] == from then to else s[0]] + Replace(s[1..], from, to)
  }

  function TranslitChar(c: char): char
  {
    if c == ALEF || c == AYIN then 'a' else if c == VAV then 'o' else c
  }

  /** `city.replace('א', 'a').replace('ע', 'a').replace('ו', 'o')`. */
  function Transliterate(city: string): string
  {
    Replace(Replace(Replace(city, ALEF, 'a'), AYIN, 'a'), VAV, 'o')
  }

  /** The three replacements act character by character, keep the length and leave
      none of the three letters behind. */
  lemma TransliterateSpec(city: string)
    ensures |Transliterate(city)| == |city|
    ensures forall i :: 0 <= i < |city| ==> Transliterate(city)[i] == TranslitChar(city[i])
    ensures ALEF !in Transliterate(city) && AYIN !in Transliterate(city) && VAV !in Transliterate(city)
  {
    var t := Transliterate(city);
    forall i | 0 <= i < |city| ensures t[i] == TranslitChar(city[i]) {
    }
  }

  /** The city slug: `slugify.slugify` of the transliterated name. */
  function CitySlug(slugify: string -> string, city: string): string
  {
    slugify(Transliterate(city))
  }

  /** `hashlib.md5(_id.encode()).hexdigest()[:8]`; `digest` is the hex digest. */
  function IdSlug(digest: string -> string, id: string): (r: string)
    ensures |r| <= 8 && |r| <= |digest(id)| && r == digest(id)[..|r|]
  {
    var d := digest(id);
    d[..Min(8, |d|)]
  }

  predicate IsHexDigit(c: char)
  {
    ('0' <= c <= '9') || ('a' <= c <= 'f')
  }

  /** What `hexdigest()` returns: 32 lower-case hex digits. */
  predicate IsHexDigest(d: string)
  {
    |d| == 32 && forall i :: 0 <= i < |d| ==> IsHexDigit(d[i])
  }

  /** An id slug is eight hex digits, so never the `.config` document id. */
  lemma IdSlugShape(digest: string -> string, id: string)
    requires IsHexDigest(digest(id))
    ensures |IdSlug(digest, id)| == 8
    ensures forall i :: 0 <= i < 8 ==> IsHexDigit(IdSlug(digest, id)[i])
    ensures IdSlug(digest, id) != CONFIG_ID
  {
    assert !IsHexDigit(CONFIG_ID[0]);
  }

  // ---------------------------------------------------------------------------
  // slugify_row

  datatype Failure = CitySlugTaken | IdSlugTaken | IdNotText

  datatype SlugVerdict = Slugged(row: Doc) | SlugAborted(failure: Failure)

  /** The closure state of slugify_row: `used` and `existing_slugs`. */
  datatype SlugState = SlugState(used: map<string, string>, existing: set<string>)

  /** Every cached slug is the city's own slug and is taken, and no two cached cities
      share a slug. */
  predicate SlugInv(s: SlugState, slugify: string -> string)
  {
    && (forall c :: c in s.used ==> s.used[c] == CitySlug(slugify, c) && s.used[c] in s.existing)
    && (forall c1, c2 :: c1 in s.used && c2 in s.used && c1 != c2 ==> s.used[c1] != s.used[c2])
  }

  /** `used[city] = slug; existing_slugs.add(slug)` for a city seen for the first time. */
  function AdmitCity(s: SlugState, city: string, slugify: string -> string): (r: SlugState)
    ensures city in s.used ==> r == s
    ensures city !in s.used ==>
              r.used == s.used[city := CitySlug(slugify, city)] && r.existing == s.existing + {CitySlug(slugify, city)}
    ensures SlugInv(s, slugify) && (city in s.used || CitySlug(slugify, city) !in s.existing) ==>
              && SlugInv(r, slugify)
              && city in r.used && r.used[city] == CitySlug(slugify, city)
              && r.existing == s.existing + {CitySlug(slugify, city)}
  {
    if city in s.used then s
    else SlugState(s.used[city := CitySlug(slugify, city)], s.existing + {CitySlug(slugify, city)})
  }

  /** The slug stage on one row whose city is a string. A new city's slug must not be
      taken; the id slug must not be taken either, counting the city slug just added.
      The assertions abort the run. */
  function SlugStep(s: SlugState, row: Doc, slugify: string -> string, digest: string -> string): (r: (SlugState, SlugVerdict))
    requires "city" in row && row["city"].JStr?
    ensures SlugInv(s, slugify) ==> SlugInv(r.0, slugify)
    ensures s.existing <= r.0.existing
    ensures forall c :: c in s.used ==> c in r.0.used && r.0.used[c] == s.used[c]
    ensures r.1 == SlugAborted(CitySlugTaken) <==> row["city"].s !in s.used && CitySlug(slugify, row["city"].s) in s.existing
    ensures r.1.Slugged? ==>
              && "_id" in row && row["_id"].JStr?
              && r.0.used == AdmitCity(s, row["city"].s, slugify).used
              && r.0.existing == AdmitCity(s, row["city"].s, slugify).existing + {IdSlug(digest, row["_id"].s)}
              && IdSlug(digest, row["_id"].s) !in AdmitCity(s, row["city"].s, slugify).existing
              && r.1.row == row["city-slug" := JStr(r.0.used[row["city"].s])]["id-slug" := JStr(IdSlug(digest, row["_id"].s))]
    ensures row["city"].s in s.used || CitySlug(slugify, row["city"].s) !in s.existing ==>
              && r.0.used == AdmitCity(s, row["city"].s, slugify).used
              && (r.1.Slugged? <==>
                    "_id" in row && row["_id"].JStr? && IdSlug(digest, row["_id"].s) !in AdmitCity(s, row["city"].s, slugify).existing)
              && (!("_id" in row && row["_id"].JStr?) ==> r.1 == SlugAborted(IdNotText))
              && ("_id" in row && row["_id"].JStr? && IdSlug(digest, row["_id"].s) in AdmitCity(s, row["city"].s, slugify).existing ==>
                    r.1 == SlugAborted(IdSlugTaken))
  {
    var city := row["city"].s;
    if city !in s.used && CitySlug(slugify, city) in s.existing then
      (s, SlugAborted(CitySlugTaken))
    else
      var s1 := AdmitCity(s, city, slugify);
      if !("_id" in row && row["_id"].JStr?) then
        (s1, SlugAborted(IdNotText))
      else
        var idSlug := IdSlug(digest, row["_id"].s);
        if idSlug in s1.existing then
          (s1, SlugAborted(IdSlugTaken))
        else
          (SlugState(s1.used, s1.existing + {idSlug}),
           Slugged(row["city-slug" := JStr(s1.used[city])]["id-slug" := JStr(idSlug)]))
  }

  /** A slugged row carries its city's slug, the same for every row of that city, and
      an id slug that was free and differs from every slug taken before. */
  lemma SluggedRowShape(s: SlugState, row: Doc, slugify: string -> string, digest: string -> string)
    requires "city" in row && row["city"].JStr?
    requires SlugInv(s, slugify)
    requires SlugStep(s, row, slugify, digest).1.Slugged?
    ensures var (s2, v) := SlugStep(s, row, slugify, digest);
            var city := row["city"].s;
            var idSlug := IdSlug(digest, row["_id"].s);
            && v.row == row["city-slug" := JStr(CitySlug(slugify, city))]["id-slug" := JStr(idSlug)]
            && idSlug !in s.existing && idSlug != CitySlug(slugify, city)
            && s2.existing == s.existing + {CitySlug(slugify, city), idSlug}
            && (forall c :: c in s.used ==> s.used[c] != idSlug)
  {
  }

  /** A repeated `_id` aborts the run: its id slug is already taken. */
  lemma RepeatedIdAborts(s: SlugState, row: Doc, slugify: string -> string, digest: string -> string)
    requires "city" in row && row["city"].JStr? && "_id" in row && row["_id"].JStr?
    requires row["city"].s in s.used
    requires IdSlug(digest, row["_id"].s) in s.existing
    ensures SlugStep(s, row, slugify, digest).1 == SlugAborted(IdSlugTaken)
  {
  }

  /** slugify_row's closure as an object: its fields are the run state. */
  class SlugStage {
    var used: map<string, string>
    var existingSlugs: set<string>
    const slugify: string -> string
    const digest: string -> string

    function State(): SlugState
      reads this
    {
      SlugState(used, existingSlugs)
    }

    constructor (slugify: string -> string, digest: string -> string)
      ensures used == map[] && existingSlugs == {}
      ensures this.slugify == slugify && this.digest == digest
    {
      used := map[];
      existingSlugs := {};
      this.slugify := slugify;
      this.digest := digest;
    }

    /** The row function of slugify_row. */
    method Apply(row: Doc) returns (verdict: SlugVerdict)
      requires "city" in row && row["city"].JStr?
      modifies this
      ensures (State(), verdict) == SlugStep(old(State()), row, slugify, digest)
    {
      var city := row["city"].s;
      if city !in used {
        var slug := CitySlug(slugify, city);
        if slug in existingSlugs {
          return SlugAborted(CitySlugTaken);
        }
        used := used[city := slug];
        existingSlugs := existingSlugs + {slug};
      }
      var out := row["city-slug" := JStr(used[city])];
      if !("_id" in row && row["_id"].JStr?) {
        return SlugAborted(IdNotText);
      }
      var idSlug := IdSlug(digest, row["_id"].s);
      out := out["id-slug" := JStr(idSlug)];
      if idSlug in existingSlugs {
        return SlugAborted(IdSlugTaken);
      }
      existingSlugs := existingSlugs + {idSlug};
      return Slugged(out);
    }
  }

  // ---------------------------------------------------------------------------
  // load_to_storage

  const CONFIG_ID: string := ".config"

  function ConfigRef(slug: string): DocRef
  {
    DocRef([slug], CONFIG_ID)
  }

  /** Where a slugged row is stored. */
  function ItemRefOf(row: Doc): DocRef
  {
    DocRef([Text(row, "city-slug")], Text(row, "id-slug"))
  }

  /** The `.config` document created for a new city. */
  function NewConfig(key: string, city: Json): (config: Doc)
    ensures config.Keys == {"key", "metadata"}
    ensures config["key"] == JStr(key) && config["metadata"] == JObj(map["city" := city])
  {
    map["key" := JStr(key), "metadata" := JObj(map["city" := city])]
  }

  /** The closure state of load_to_storage, with the store it writes. */
  datatype LoadState = LoadState(docs: Docs, added: set<string>)

  predicate HasSlugs(row: Doc)
  {
    "city-slug" in row && row["city-slug"].JStr? && "id-slug" in row && row["id-slug"].JStr?
  }

  /** load_to_storage on one row, with the existence probe read as the property it is
      and a fresh key for the config: the row is merged into its document, and on the
      first row for a slug the config is created unless it exists. */
  function LoadStep(s: LoadState, row: Doc, key: string): (r: LoadState)
    requires HasSlugs(row)
    ensures var ref := ItemRefOf(row);
            ref in r.docs && (ref.id != CONFIG_ID ==> r.docs[ref] == MergeFields(Lookup(s.docs, ref), row))
    ensures r.added == s.added + {Text(row, "city-slug")}
    ensures Text(row, "city-slug") !in s.added ==> ConfigRef(Text(row, "city-slug")) in r.docs
    ensures forall ref :: ref in s.docs && ref != ItemRefOf(row) ==> ref in r.docs && r.docs[ref] == s.docs[ref]
    ensures forall ref :: ref in r.docs ==>
              ref in s.docs || ref == ItemRefOf(row) || (ref == ConfigRef(Text(row, "city-slug")) && Text(row, "city-slug") !in s.added)
    ensures var cfg := ConfigRef(Text(row, "city-slug"));
            cfg !in s.docs && cfg != ItemRefOf(row) && Text(row, "city-slug") !in s.added ==>
              r.docs[cfg] == NewConfig(key, Get(row, "city"))
  {
    var slug := row["city-slug"].s;
    var ref := DocRef([slug], row["id-slug"].s);
    var docs := s.docs[ref := MergeFields(Lookup(s.docs, ref), row)];
    if slug in s.added then
      LoadState(docs, s.added)
    else
      var config := ConfigRef(slug);
      if config in docs then LoadState(docs, s.added + {slug})
      else LoadState(docs[config := NewConfig(key, Get(row, "city"))], s.added + {slug})
  }

  /** load_to_storage's closure as an object: the store it writes and `added_cities`. */
  class StorageLoader {
    const db: Database
    var addedCities: set<string>

    constructor (db: Database)
      ensures this.db == db && addedCities == {}
    {
      this.db := db;
      addedCities := {};
    }

    /** The row function of load_to_storage, with the config probe read as a property
        and the fresh key supplied by the caller. */
    method Load(row: Doc, key: string)
      requires HasSlugs(row)
      modifies db, this
      ensures LoadState(db.docs, addedCities) == LoadStep(old(LoadState(db.docs, addedCities)), row, key)
    {
      var slug := row["city-slug"].s;
      db.SetMerge(DocRef([slug], row["id-slug"].s), row);
      if slug !in addedCities {
        var config := ConfigRef(slug);
        if config !in db.docs {
          db.Set(config, NewConfig(key, Get(row, "city")));
        }
        addedCities := addedCities + {slug};
      }
    }
  }

  datatype LoadVerdict = Loaded | ProbeRaised

  /** load_to_storage as written: the row is merged, and then on the first row for a
      slug `config.get().exists()` calls the boolean `exists` and raises, before
      either the config or `added_cities` is touched. */
  function LoadStepAsWritten(s: LoadState, row: Doc): (r: (LoadState, LoadVerdict))
    requires HasSlugs(row)
    ensures r.0.added == s.added
    ensures r.1 == ProbeRaised <==> Text(row, "city-slug") !in s.added
  {
    var slug := row["city-slug"].s;
    var ref := DocRef([slug], row["id-slug"].s);
    var docs := s.docs[ref := MergeFields(Lookup(s.docs, ref), row)];
    if slug in s.added then (LoadState(docs, s.added), Loaded) else (LoadState(docs, s.added), ProbeRaised)
  }

  /** As written, the first row of every city raises and no config is ever created;
      with the probe read as a property, the missing config is created. */
  lemma ConfigNeverCreatedAsWritten(s: LoadState, row: Doc, key: string)
    requires HasSlugs(row) && Text(row, "city-slug") !in s.added
    requires ConfigRef(Text(row, "city-slug")) !in s.docs && Text(row, "id-slug") != CONFIG_ID
    ensures LoadStepAsWritten(s, row).1 == ProbeRaised
    ensures ConfigRef(Text(row, "city-slug")) !in LoadStepAsWritten(s, row).0.docs
    ensures LoadStep(s, row, key).docs[ConfigRef(Text(row, "city-slug"))] == NewConfig(key, Get(row, "city"))
  {
  }

  // ---------------------------------------------------------------------------
  // The run

  /** What the run is given: the alias table, the canonical cities, the two library
      functions and one fresh config key per row position. */
  datatype Env = Env(
    aliases: map<string, string>,
    cities: seq<string>,
    slugify: string -> string,
    digest: string -> string,
    keys: nat -> string)

  datatype RunState = RunState(slugs: SlugState, load: LoadState, loaded: seq<Doc>)

  /** A run in progress, or stopped by a failed assertion. */
  datatype Run = Running(st: RunState) | Stopped(st: RunState, failure: Failure)

  function Init(docs: Docs): RunState
  {
    RunState(SlugState(map[], {}), LoadState(docs, {}), [])
  }

  /** One row through rename, whitelist, slug and load; `count` passes every row on
      unchanged and is not a stage here. */
  function Stage(st: RunState, row: Doc, env: Env, key: string): (r: Run)
    requires "city" in row
    ensures !Whitelisted(MapNames(row, env.aliases), env.cities) ==> r == Running(st)
    ensures r.Stopped? ==> r.st.load == st.load && r.st.loaded == st.loaded
    ensures r.Running? ==>
              r.st.loaded == st.loaded || (|r.st.loaded| == |st.loaded| + 1 && r.st.loaded[..|st.loaded|] == st.loaded)
    ensures r.Running? && r.st.loaded != st.loaded ==>
              var out := r.st.loaded[|st.loaded|];
              && Whitelisted(MapNames(row, env.aliases), env.cities)
              && HasSlugs(out) && r.st.load == LoadStep(st.load, out, key)
  {
    var named := MapNames(row, env.aliases);
    if !Whitelisted(named, env.cities) then Running(st)
    else
      var (s1, v) := SlugStep(st.slugs, named, env.slugify, env.digest);
      match v
      case SlugAborted(f) => Stopped(RunState(s1, st.load, st.loaded), f)
      case Slugged(out) => Running(RunState(s1, LoadStep(st.load, out, key), st.loaded + [out]))
  }

  /** The rows in order through every stage, stopping at the first failure. */
  function RunRows(init: RunState, rows: seq<Doc>, env: Env): (r: Run)
    requires forall i :: 0 <= i < |rows| ==> "city" in rows[i]
    ensures |init.loaded| <= |r.st.loaded| <= |init.loaded| + |rows|
    ensures r.st.loaded[..|init.loaded|] == init.loaded
    decreases |rows|
  {
    if rows == [] then Running(init)
    else
      match RunRows(init, rows[..|rows| - 1], env)
      case Stopped(st, f) => Stopped(st, f)
      case Running(st) => Stage(st, rows[|rows| - 1], env, env.keys(|rows| - 1))
  }

  /** Once stopped, later rows change nothing. */
  lemma {:induction false} StoppedStaysStopped(init: RunState, rows: seq<Doc>, k: nat, env: Env)
    requires k <= |rows|
    requires forall i :: 0 <= i < |rows| ==> "city" in rows[i]
    requires RunRows(init, rows[..k], env).Stopped?
    ensures RunRows(init, rows, env) == RunRows(init, rows[..k], env)
    decreases |rows|
  {
    if k < |rows| {
      var prefix := rows[..|rows| - 1];
      assert prefix[..k] == rows[..k];
      StoppedStaysStopped(init, prefix, k, env);
    } else {
      assert rows[..k] == rows;
    }
  }

  /** Running one more row of the input is one more stage, unless the run stopped. */
  lemma RunRowsNext(init: RunState, rows: seq<Doc>, i: nat, env: Env)
    requires i < |rows|
    requires forall k :: 0 <= k < |rows| ==> "city" in rows[k]
    ensures RunRows(init, rows[..i + 1], env) ==
              match RunRows(init, rows[..i], env)
              case Stopped(st, f) => Stopped(st, f)
              case Running(st) => Stage(st, rows[i], env, env.keys(i))
  {
    assert rows[..i + 1][..i] == rows[..i];
  }

  // ---------------------------------------------------------------------------
  // Run invariants

  /** The shape of a row that reached the store. */
  predicate RowInv(row: Doc, env: Env)
  {
    && Whitelisted(row, env.cities)
    && "_id" in row && row["_id"].JStr?
    && HasSlugs(row)
    && Text(row, "city-slug") == CitySlug(env.slugify, Text(row, "city"))
    && Text(row, "id-slug") == IdSlug(env.digest, Text(row, "_id"))
    && Text(row, "id-slug") != CONFIG_ID
  }

  /** The slug state against the rows loaded so far: every loaded row's city is cached
      and its id slug taken, no cached city slug equals a loaded id slug, and the
      loaded id slugs are pairwise distinct. */
  predicate SlugRunInv(s: SlugState, loaded: seq<Doc>, env: Env)
  {
    && SlugInv(s, env.slugify)
    && (forall i :: 0 <= i < |loaded| ==> LoadedRowOk(loaded[i], s, env))
    && (forall i, j :: 0 <= i < j < |loaded| ==> Text(loaded[i], "id-slug") != Text(loaded[j], "id-slug"))
  }

  predicate LoadedRowOk(row: Doc, s: SlugState, env: Env)
  {
    && RowInv(row, env)
    && Text(row, "city") in s.used
    && Text(row, "id-slug") in s.existing
    && forall c :: c in s.used ==> s.used[c] != Text(row, "id-slug")
  }

  /** A loaded row stays consistent with a slug state that keeps the old cache and
      only adds cities whose slugs were free. */
  lemma LoadedRowStaysOk(row: Doc, s: SlugState, s2: SlugState, env: Env)
    requires LoadedRowOk(row, s, env)
    requires forall c :: c in s.used ==> c in s2.used && s2.used[c] == s.used[c]
    requires s.existing <= s2.existing
    requires forall c :: c in s2.used && c !in s.used ==> s2.used[c] !in s.existing
    ensures LoadedRowOk(row, s2, env)
  {
  }

  /** A city the slug stage adds to its cache gets a slug that was free. */
  lemma SlugStepAddsFreeSlugs(s: SlugState, row: Doc, slugify: string -> string, digest: string -> string)
    requires "city" in row && row["city"].JStr?
    ensures var s2 := SlugStep(s, row, slugify, digest).0;
            forall c :: c in s2.used && c !in s.used ==> c == row["city"].s && s2.used[c] == CitySlug(slugify, c) && s2.used[c] !in s.existing
  {
  }

  function ItemRefs(loaded: seq<Doc>): set<DocRef>
  {
    set i | 0 <= i < |loaded| :: ItemRefOf(loaded[i])
  }

  function CitySlugs(loaded: seq<Doc>): set<string>
  {
    set i | 0 <= i < |loaded| :: Text(loaded[i], "city-slug")
  }

  lemma ItemRefsAppend(loaded: seq<Doc>, row: Doc)
    ensures ItemRefs(loaded + [row]) == ItemRefs(loaded) + {ItemRefOf(row)}
    ensures CitySlugs(loaded + [row]) == CitySlugs(loaded) + {Text(row, "city-slug")}
  {
    var ext := loaded + [row];
    assert forall i :: 0 <= i < |loaded| ==> ext[i] == loaded[i];
    assert ext[|loaded|] == row;
  }

  /** `added_cities` is the set of slugs of the loaded rows. */
  predicate AddedIsLoaded(ld: LoadState, loaded: seq<Doc>)
  {
    ld.added == CitySlugs(loaded)
  }

  /** Every loaded row is merged over what its document held before the run. */
  predicate ItemsMerged(d0: Docs, ld: LoadState, loaded: seq<Doc>)
  {
    forall i :: 0 <= i < |loaded| ==>
      && ItemRefOf(loaded[i]) in ld.docs
      && ld.docs[ItemRefOf(loaded[i])] == MergeFields(Lookup(d0, ItemRefOf(loaded[i])), loaded[i])
  }

  predicate ConfigsPresent(ld: LoadState)
  {
    forall slug :: slug in ld.added ==> ConfigRef(slug) in ld.docs
  }

  /** A document no loaded row lands on is as it was. */
  predicate OthersKept(d0: Docs, ld: LoadState, loaded: seq<Doc>)
  {
    forall ref :: ref in d0 && ref !in ItemRefs(loaded) ==> ref in ld.docs && ld.docs[ref] == d0[ref]
  }

  /** Every document was there before, is a loaded row's, or is an added slug's config. */
  predicate NothingElse(d0: Docs, ld: LoadState, loaded: seq<Doc>)
  {
    forall ref :: ref in ld.docs ==>
      || ref in d0 || ref in ItemRefs(loaded)
      || (ref.id == CONFIG_ID && |ref.collection| == 1 && ref.collection[0] in ld.added)
  }

  /** The store against the rows loaded so far. */
  predicate DocsRunInv(d0: Docs, ld: LoadState, loaded: seq<Doc>)
  {
    && AddedIsLoaded(ld, loaded)
    && ItemsMerged(d0, ld, loaded)
    && ConfigsPresent(ld)
    && OthersKept(d0, ld, loaded)
    && NothingElse(d0, ld, loaded)
  }

  predicate RunInv(d0: Docs, st: RunState, env: Env)
  {
    SlugRunInv(st.slugs, st.loaded, env) && DocsRunInv(d0, st.load, st.loaded)
  }

  /** Every digest is an MD5 hex digest. */
  ghost predicate HexDigests(digest: string -> string)
  {
    forall s :: IsHexDigest(digest(s))
  }

  lemma SlugStepKeepsRunInv(s: SlugState, loaded: seq<Doc>, row: Doc, env: Env)
    requires SlugRunInv(s, loaded, env) && Whitelisted(row, env.cities) && HexDigests(env.digest)
    ensures var (s2, v) := SlugStep(s, row, env.slugify, env.digest);
            SlugRunInv(s2, if v.Slugged? then loaded + [v.row] else loaded, env)
  {
    var (s2, v) := SlugStep(s, row, env.slugify, env.digest);
    SlugStepAddsFreeSlugs(s, row, env.slugify, env.digest);
    forall i | 0 <= i < |loaded| ensures LoadedRowOk(loaded[i], s2, env) {
      LoadedRowStaysOk(loaded[i], s, s2, env);
    }
    if v.Slugged? {
      SlugStepKeepsRunInvSlugged(s, loaded, row, env);
    }
  }

  /** The row a successful slug step emits fits the new slug state, and its id slug
      was free before. */
  lemma SluggedRowOk(s: SlugState, row: Doc, env: Env)
    requires SlugInv(s, env.slugify) && Whitelisted(row, env.cities) && HexDigests(env.digest)
    requires SlugStep(s, row, env.slugify, env.digest).1.Slugged?
    ensures var (s2, v) := SlugStep(s, row, env.slugify, env.digest);
            LoadedRowOk(v.row, s2, env) && Text(v.row, "id-slug") !in s.existing
  {
    var (s2, v) := SlugStep(s, row, env.slugify, env.digest);
    SluggedRowShape(s, row, env.slugify, env.digest);
    SlugStepAddsFreeSlugs(s, row, env.slugify, env.digest);
    var out := v.row;
    IdSlugShape(env.digest, row["_id"].s);
    assert Text(out, "city") == row["city"].s && Text(out, "_id") == row["_id"].s;
    assert Text(out, "id-slug") == IdSlug(env.digest, row["_id"].s);
  }

  /** Appending a row that fits the slug state and whose id slug was free before keeps
      the slug invariant. */
  lemma AppendLoadedRow(s: SlugState, s2: SlugState, loaded: seq<Doc>, out: Doc, env: Env)
    requires SlugInv(s2, env.slugify)
    requires forall i :: 0 <= i < |loaded| ==> LoadedRowOk(loaded[i], s2, env)
    requires forall i :: 0 <= i < |loaded| ==> Text(loaded[i], "id-slug") in s.existing
    requires forall i, j :: 0 <= i < j < |loaded| ==> Text(loaded[i], "id-slug") != Text(loaded[j], "id-slug")
    requires LoadedRowOk(out, s2, env) && Text(out, "id-slug") !in s.existing
    ensures SlugRunInv(s2, loaded + [out], env)
  {
    var ext := loaded + [out];
    forall i | 0 <= i < |ext| ensures LoadedRowOk(ext[i], s2, env) {
      if i < |loaded| {
        assert ext[i] == loaded[i];
      }
    }
    forall i, j | 0 <= i < j < |ext| ensures Text(ext[i], "id-slug") != Text(ext[j], "id-slug") {
      assert ext[i] == loaded[i];
      if j < |loaded| {
        assert ext[j] == loaded[j];
      }
    }
  }

  lemma SlugStepKeepsRunInvSlugged(s: SlugState, loaded: seq<Doc>, row: Doc, env: Env)
    requires SlugRunInv(s, loaded, env) && Whitelisted(row, env.cities) && HexDigests(env.digest)
    requires SlugStep(s, row, env.slugify, env.digest).1.Slugged?
    requires forall i :: 0 <= i < |loaded| ==> LoadedRowOk(loaded[i], SlugStep(s, row, env.slugify, env.digest).0, env)
    ensures var (s2, v) := SlugStep(s, row, env.slugify, env.digest);
            SlugRunInv(s2, loaded + [v.row], env)
  {
    var (s2, v) := SlugStep(s, row, env.slugify, env.digest);
    SluggedRowOk(s, row, env);
    assert forall i :: 0 <= i < |loaded| ==> LoadedRowOk(loaded[i], s, env);
    AppendLoadedRow(s, s2, loaded, v.row, env);
  }

  /** The conditions on a row loaded after `loaded`: its id slug is new and neither it
      nor an earlier one is the config id. */
  predicate FreshRow(loaded: seq<Doc>, row: Doc)
  {
    && HasSlugs(row) && Text(row, "id-slug") != CONFIG_ID
    && (forall i :: 0 <= i < |loaded| ==> Text(loaded[i], "id-slug") != Text(row, "id-slug"))
    && (forall i :: 0 <= i < |loaded| ==> Text(loaded[i], "id-slug") != CONFIG_ID)
  }

  lemma FreshRowRef(loaded: seq<Doc>, row: Doc)
    requires FreshRow(loaded, row)
    ensures ItemRefOf(row) !in ItemRefs(loaded)
    ensures forall i :: 0 <= i < |loaded| ==> ItemRefOf(loaded[i]) != ItemRefOf(row)
    ensures forall i, slug :: 0 <= i < |loaded| ==> ItemRefOf(loaded[i]) != ConfigRef(slug)
  {
  }

  lemma LoadStepKeepsItemsMerged(d0: Docs, ld: LoadState, loaded: seq<Doc>, row: Doc, key: string)
    requires ItemsMerged(d0, ld, loaded) && OthersKept(d0, ld, loaded) && NothingElse(d0, ld, loaded)
    requires FreshRow(loaded, row)
    ensures ItemsMerged(d0, LoadStep(ld, row, key), loaded + [row])
  {
    var ld2 := LoadStep(ld, row, key);
    var ext := loaded + [row];
    var ref := ItemRefOf(row);
    FreshRowRef(loaded, row);
    assert Lookup(ld.docs, ref) == Lookup(d0, ref);
    forall i | 0 <= i < |ext|
      ensures ItemRefOf(ext[i]) in ld2.docs
      ensures ld2.docs[ItemRefOf(ext[i])] == MergeFields(Lookup(d0, ItemRefOf(ext[i])), ext[i])
    {
      if i < |loaded| {
        assert ext[i] == loaded[i];
      }
    }
  }

  lemma LoadStepKeepsOthers(d0: Docs, ld: LoadState, loaded: seq<Doc>, row: Doc, key: string)
    requires OthersKept(d0, ld, loaded) && HasSlugs(row)
    ensures OthersKept(d0, LoadStep(ld, row, key), loaded + [row])
  {
    ItemRefsAppend(loaded, row);
  }

  lemma LoadStepKeepsNothingElse(d0: Docs, ld: LoadState, loaded: seq<Doc>, row: Doc, key: string)
    requires NothingElse(d0, ld, loaded) && HasSlugs(row)
    ensures NothingElse(d0, LoadStep(ld, row, key), loaded + [row])
  {
    ItemRefsAppend(loaded, row);
  }

  lemma LoadStepKeepsDocsInv(d0: Docs, ld: LoadState, loaded: seq<Doc>, row: Doc, key: string)
    requires DocsRunInv(d0, ld, loaded)
    requires FreshRow(loaded, row)
    ensures DocsRunInv(d0, LoadStep(ld, row, key), loaded + [row])
  {
    ItemRefsAppend(loaded, row);
    LoadStepKeepsItemsMerged(d0, ld, loaded, row, key);
    LoadStepKeepsOthers(d0, ld, loaded, row, key);
    LoadStepKeepsNothingElse(d0, ld, loaded, row, key);
  }

  /** What the slug invariant says about a row just appended to the loaded rows. */
  lemma AppendedRowFacts(s: SlugState, loaded: seq<Doc>, row: Doc, env: Env)
    requires SlugRunInv(s, loaded + [row], env)
    ensures FreshRow(loaded, row)
  {
    var ext := loaded + [row];
    assert LoadedRowOk(ext[|loaded|], s, env) && ext[|loaded|] == row;
    forall i | 0 <= i < |loaded|
      ensures Text(loaded[i], "id-slug") != Text(row, "id-slug")
      ensures Text(loaded[i], "id-slug") != CONFIG_ID
    {
      assert ext[i] == loaded[i];
      assert LoadedRowOk(ext[i], s, env);
    }
  }

  lemma StageKeepsRunInv(d0: Docs, st: RunState, row: Doc, env: Env, key: string)
    requires "city" in row && RunInv(d0, st, env) && HexDigests(env.digest)
    ensures RunInv(d0, Stage(st, row, env, key).st, env)
  {
    var named := MapNames(row, env.aliases);
    if Whitelisted(named, env.cities) {
      var (s1, v) := SlugStep(st.slugs, named, env.slugify, env.digest);
      SlugStepKeepsRunInv(st.slugs, st.loaded, named, env);
      if v.Slugged? {
        AppendedRowFacts(s1, st.loaded, v.row, env);
        LoadStepKeepsDocsInv(d0, st.load, st.loaded, v.row, key);
      }
    }
  }

  /** Every state a run passes through satisfies the run invariants. */
  lemma {:induction false} RunRowsKeepsInv(d0: Docs, rows: seq<Doc>, env: Env)
    requires forall i :: 0 <= i < |rows| ==> "city" in rows[i]
    requires HexDigests(env.digest)
    ensures RunInv(d0, RunRows(Init(d0), rows, env).st, env)
    decreases |rows|
  {
    if rows == [] {
      assert ItemRefs([]) == {} && CitySlugs([]) == {};
    } else {
      var prefix := rows[..|rows| - 1];
      RunRowsKeepsInv(d0, prefix, env);
      match RunRows(Init(d0), prefix, env)
      case Stopped(_, _) =>
      case Running(st) => StageKeepsRunInv(d0, st, rows[|rows| - 1], env, env.keys(|rows| - 1));
    }
  }

  /** The state a run ends in, completed or stopped. */
  function FinalState(d0: Docs, rows: seq<Doc>, env: Env): RunState
    requires forall i :: 0 <= i < |rows| ==> "city" in rows[i]
  {
    RunRows(Init(d0), rows, env).st
  }

  /** Slugs in a state the run reaches: rows of one city share its slug, rows of two
      cities never do, and no id slug is a city slug. */
  lemma SlugsSeparate(d0: Docs, st: RunState, env: Env)
    requires RunInv(d0, st, env)
    ensures forall i, j :: 0 <= i < |st.loaded| && 0 <= j < |st.loaded| ==>
              Text(st.loaded[i], "id-slug") != Text(st.loaded[j], "city-slug")
    ensures forall i, j :: 0 <= i < |st.loaded| && 0 <= j < |st.loaded| ==>
              (Text(st.loaded[i], "city") == Text(st.loaded[j], "city") <==>
               Text(st.loaded[i], "city-slug") == Text(st.loaded[j], "city-slug"))
  {
    var loaded := st.loaded;
    var used := st.slugs.used;
    forall i, j | 0 <= i < |loaded| && 0 <= j < |loaded|
      ensures Text(loaded[i], "id-slug") != Text(loaded[j], "city-slug")
    {
      assert LoadedRowOk(loaded[i], st.slugs, env) && LoadedRowOk(loaded[j], st.slugs, env);
      assert Text(loaded[j], "city") in used;
    }
    forall i, j | 0 <= i < |loaded| && 0 <= j < |loaded| && Text(loaded[i], "city") != Text(loaded[j], "city")
      ensures Text(loaded[i], "city-slug") != Text(loaded[j], "city-slug")
    {
      assert LoadedRowOk(loaded[i], st.slugs, env) && LoadedRowOk(loaded[j], st.slugs, env);
      assert Text(loaded[i], "city") in used && Text(loaded[j], "city") in used;
    }
  }

  /** Documents in a state the run reaches: every loaded slug has a config, and an
      existing config is never rewritten. */
  lemma ConfigsKept(d0: Docs, st: RunState, env: Env)
    requires RunInv(d0, st, env)
    ensures forall i :: 0 <= i < |st.loaded| ==> ConfigRef(Text(st.loaded[i], "city-slug")) in st.load.docs
    ensures forall slug :: ConfigRef(slug) in d0 ==>
              ConfigRef(slug) in st.load.docs && st.load.docs[ConfigRef(slug)] == d0[ConfigRef(slug)]
  {
    var loaded := st.loaded;
    forall i | 0 <= i < |loaded| ensures ConfigRef(Text(loaded[i], "city-slug")) in st.load.docs {
      assert Text(loaded[i], "city-slug") in CitySlugs(loaded);
    }
    forall slug | ConfigRef(slug) in d0 ensures ConfigRef(slug) !in ItemRefs(loaded) {
      forall i | 0 <= i < |loaded| ensures ItemRefOf(loaded[i]) != ConfigRef(slug) {
        assert LoadedRowOk(loaded[i], st.slugs, env);
      }
    }
  }

  /** The loaded rows of a state the run reaches are whitelisted and carry their own
      two slugs. */
  lemma RowsShaped(d0: Docs, st: RunState, env: Env)
    requires RunInv(d0, st, env)
    ensures forall i :: 0 <= i < |st.loaded| ==>
              && Whitelisted(st.loaded[i], env.cities)
              && Text(st.loaded[i], "city-slug") == CitySlug(env.slugify, Text(st.loaded[i], "city"))
              && Text(st.loaded[i], "id-slug") == IdSlug(env.digest, Text(st.loaded[i], "_id"))
  {
    assert forall i :: 0 <= i < |st.loaded| ==> LoadedRowOk(st.loaded[i], st.slugs, env);
  }

  /** The slugs of a run, completed or stopped: every loaded row is whitelisted and
      carries its two slugs; id slugs are distinct and never a city slug; rows of one
      city share its slug and rows of two cities never do. */
  lemma RunSlugGuarantees(d0: Docs, rows: seq<Doc>, env: Env)
    requires forall i :: 0 <= i < |rows| ==> "city" in rows[i]
    requires HexDigests(env.digest)
    ensures var L := FinalState(d0, rows, env).loaded;
            forall i :: 0 <= i < |L| ==>
              && Whitelisted(L[i], env.cities)
              && Text(L[i], "city-slug") == CitySlug(env.slugify, Text(L[i], "city"))
              && Text(L[i], "id-slug") == IdSlug(env.digest, Text(L[i], "_id"))
    ensures var L := FinalState(d0, rows, env).loaded;
            forall i, j :: 0 <= i < j < |L| ==> Text(L[i], "id-slug") != Text(L[j], "id-slug")
    ensures var L := FinalState(d0, rows, env).loaded;
            forall i, j :: 0 <= i < |L| && 0 <= j < |L| ==> Text(L[i], "id-slug") != Text(L[j], "city-slug")
    ensures var L := FinalState(d0, rows, env).loaded;
            forall i, j :: 0 <= i < |L| && 0 <= j < |L| ==>
              (Text(L[i], "city") == Text(L[j], "city") <==> Text(L[i], "city-slug") == Text(L[j], "city-slug"))
  {
    RunRowsKeepsInv(d0, rows, env);
    var st := FinalState(d0, rows, env);
    RowsShaped(d0, st, env);
    SlugsSeparate(d0, st, env);
  }

  /** The store after a run, completed or stopped: every loaded row is merged over the
      document it lands on; every loaded slug has a config; and no other document, an
      existing config included, is changed. */
  lemma RunStoreGuarantees(d0: Docs, rows: seq<Doc>, env: Env)
    requires forall i :: 0 <= i < |rows| ==> "city" in rows[i]
    requires HexDigests(env.digest)
    ensures var st := FinalState(d0, rows, env);
            forall i :: 0 <= i < |st.loaded| ==>
              && ItemRefOf(st.loaded[i]) in st.load.docs
              && st.load.docs[ItemRefOf(st.loaded[i])] == MergeFields(Lookup(d0, ItemRefOf(st.loaded[i])), st.loaded[i])
              && ConfigRef(Text(st.loaded[i], "city-slug")) in st.load.docs
    ensures var docs := FinalState(d0, rows, env).load.docs;
            forall slug :: ConfigRef(slug) in d0 ==> ConfigRef(slug) in docs && docs[ConfigRef(slug)] == d0[ConfigRef(slug)]
    ensures var st := FinalState(d0, rows, env);
            forall ref :: ref in d0 && ref !in ItemRefs(st.loaded) ==> ref in st.load.docs && st.load.docs[ref] == d0[ref]
  {
    RunRowsKeepsInv(d0, rows, env);
    var st := FinalState(d0, rows, env);
    ConfigsKept(d0, st, env);
  }

  // ---------------------------------------------------------------------------
  // process_data

  /** One row through the rename, the whitelist and the two stage objects: the new
      state of the objects is what `Stage` yields for the old one. */
  method FeedRow(
    stage: SlugStage, loader: StorageLoader, aliases: map<string, string>, cities: seq<string>,
    row: Doc, key: string, ghost env: Env, loaded: seq<Doc>)
    returns (failure: Option<Failure>, next: seq<Doc>)
    requires "city" in row
    requires env.aliases == aliases && env.cities == cities
    requires env.slugify == stage.slugify && env.digest == stage.digest
    modifies stage, loader, loader.db
    ensures var run := Stage(RunState(old(stage.State()), old(LoadState(loader.db.docs, loader.addedCities)), loaded), row, env, key);
            var now := RunState(stage.State(), LoadState(loader.db.docs, loader.addedCities), next);
            && (failure.None? ==> run == Running(now))
            && (failure.Some? ==> run == Stopped(now, failure.value))
  {
    var named := MapNames(row, aliases);
    next := loaded;
    if Whitelisted(named, cities) {
      var verdict := stage.Apply(named);
      if verdict.SlugAborted? {
        return Some(verdict.failure), next;
      }
      loader.Load(verdict.row, key);
      next := loaded + [verdict.row];
    }
    return None, next;
  }

  /** process_data: the alias table is built, then every row is renamed, filtered,
      slugged and loaded in order until the rows run out or an assertion fails. */
  method ProcessData(
    db: Database, entries: seq<CityEntry>, rows: seq<Doc>,
    slugify: string -> string, digest: string -> string, keys: nat -> string)
    returns (failure: Option<Failure>, loaded: seq<Doc>)
    requires forall i :: 0 <= i < |rows| ==> "city" in rows[i]
    modifies db
    ensures var run := RunRows(Init(old(db.docs)), rows, Env(AliasTable(entries), Cities(entries), slugify, digest, keys));
            && loaded == run.st.loaded
            && db.docs == run.st.load.docs
            && (failure.None? <==> run.Running?)
            && (run.Stopped? ==> failure == Some(run.failure))
  {
    var aliases := BuildAliasTable(entries);
    var cities := Cities(entries);
    ghost var env := Env(aliases, cities, slugify, digest, keys);
    ghost var d0 := db.docs;
    var stage := new SlugStage(slugify, digest);
    var loader := new StorageLoader(db);
    loaded := [];
    assert rows[..0] == [];
    for i := 0 to |rows|
      invariant loader.db == db && stage.slugify == slugify && stage.digest == digest
      invariant RunRows(Init(d0), rows[..i], env) == Running(RunState(stage.State(), LoadState(db.docs, loader.addedCities), loaded))
    {
      RunRowsNext(Init(d0), rows, i, env);
      failure, loaded := FeedRow(stage, loader, aliases, cities, rows[i], keys(i), env, loaded);
      if failure.Some? {
        StoppedStaysStopped(Init(d0), rows, i + 1, env);
        return failure, loaded;
      }
    }
    assert rows[..|rows|] == rows;
    return None, loaded;
  }
}
