/** What a BackupStorage and the parameters of a backup say, in their own fields:
    where data goes, what kind of backup is taken and of what
    (internal/provider/backup.go). */
module DeclaredPlaces {
  import opened Json
  import opened Kube
  import opened Instances
  import opened Schedules

  // ----- storages -------------------------------------------------------------

  /** The host is the URL without its scheme; a second scheme after "https://" goes
      with the first. */
  predicate WithoutScheme(url: string, host: string) {
    if "https://http://" <= url then url == "https://http://" + host
    else if "https://" <= url then url == "https://" + host
    else if "http://" <= url then url == "http://" + host
    else url == host
  }

  /** The S3 specification points at the declared location, under the prefix, and
      uses TLS exactly when the URL says https. */
  predicate PointsAt(s3: S3, location: S3Location, prefix: string) {
    && s3.bucket == location.bucket && s3.region == location.region
    && s3.credentials == location.credentials && s3.prefix == prefix
    && WithoutScheme(location.endpointURL, s3.endpoint)
    && (s3.tls <==> "https://" <= location.endpointURL)
  }

  /** What is stored points at the BackupStorage of that name. */
  predicate PlacedOn(s: Store, storage: string, prefix: string, placed: Option<S3>) {
    && storage in s.storages && s.storages[storage].s3.Some?
    && placed.Some? && PointsAt(placed.value, s.storages[storage].s3.value, prefix)
  }

  /** A BackupStorage resolves to the place it declares, and to nothing else. */
  lemma ResolvedPlace(s: Store, storage: string, prefix: string)
    ensures match ResolveS3(s, storage, prefix)
            case NotPresent => storage !in s.storages
            case NotS3 => storage in s.storages && s.storages[storage].s3 == None
            case ResolvedS3(s3) =>
              && PlacedOn(s, storage, prefix, Some(s3))
              && forall other: S3 | PlacedOn(s, storage, prefix, Some(other)) :: other == s3
  {
    if storage in s.storages && s.storages[storage].s3.Some? {
      var url := s.storages[storage].s3.value.endpointURL;
      assert "https://http://" == "https://" + "http://";
      assert "https://http://" <= url ==> "https://" <= url && "http://" <= url[8..];
      forall host | WithoutScheme(url, host) ensures host == ResolveS3(s, storage, prefix).s3.endpoint {
      }
    }
  }

  /** The three ways an endpoint is written, with a host that has no scheme itself. */
  lemma EndpointReads(s: Store, storage: string, prefix: string, host: string)
    requires storage in s.storages && s.storages[storage].s3.Some?
    requires !("https://" <= host) && !("http://" <= host)
    ensures var url := s.storages[storage].s3.value.endpointURL;
      url in {"https://" + host, "http://" + host, host} ==>
        && ResolveS3(s, storage, prefix).ResolvedS3?
        && ResolveS3(s, storage, prefix).s3.endpoint == host
        && (ResolveS3(s, storage, prefix).s3.tls <==> url == "https://" + host)
  {
    var url := s.storages[storage].s3.value.endpointURL;
    ResolvedPlace(s, storage, prefix);
    assert ("https://" + host)[8..] == host && ("http://" + host)[7..] == host;
    assert ("http://" + host)[4] == ':';
  }

  // ----- parameters -----------------------------------------------------------

  /** The JSON object the parameters are read from; absent ones are an empty one. */
  function Given(p: Payload): map<string, Json> {
    if p.Document? && p.json.Obj? then p.json.fields else map[]
  }

  predicate Unset(m: map<string, Json>, key: string) {
    key !in m || m[key] == Null
  }

  predicate AllText(v: Json) {
    v.Arr? && forall i | 0 <= i < |v.items| :: v.items[i].Str? || v.items[i].Null?
  }

  /** Readable: no document, null, or an object whose known fields have their types. */
  predicate Readable(p: Payload) {
    && !p.Garbled? && (p.Document? ==> p.json.Obj? || p.json.Null?)
    && (forall key | key in {"type", "compression", "target"} :: Unset(Given(p), key) || Given(p)[key].Str?)
    && (Unset(Given(p), "ignoreGlobalPriv") || Given(p)["ignoreGlobalPriv"].Bool?)
    && (Unset(Given(p), "databases") || AllText(Given(p)["databases"]))
  }

  predicate SaysText(p: Payload, key: string, text: string) {
    if Unset(Given(p), key) then text == "" else Given(p)[key] == Str(text)
  }

  /** Physical is what the type field says; everything else is logical. */
  predicate SaysPhysical(p: Payload) {
    "type" in Given(p) && Given(p)["type"] == Str("physical")
  }

  predicate SaysDatabases(p: Payload, databases: seq<string>) {
    if Unset(Given(p), "databases") then databases == []
    else
      && AllText(Given(p)["databases"])
      && var items := Given(p)["databases"].items;
         && |databases| == |items|
         && forall i | 0 <= i < |items| :: items[i] == Str(databases[i]) || (items[i] == Null && databases[i] == "")
  }

  predicate SaysFlag(p: Payload, flag: Option<bool>) {
    if Unset(Given(p), "ignoreGlobalPriv") then flag == None
    else flag.Some? && Given(p)["ignoreGlobalPriv"] == Bool(flag.value)
  }

  /** What is taken: the named databases with the named flag and a privilege reload, or
      a snapshot from the named target, "PreferReplica" when none is named. */
  predicate Takes(p: Payload, content: Content) {
    if SaysPhysical(p) then
      content.Snapshot? && (SaysText(p, "target", "") ==> content.target == "PreferReplica")
      && (!SaysText(p, "target", "") ==> SaysText(p, "target", content.target))
    else
      content.Dump? && content.args == ["--flush-privileges"] && SaysDatabases(p, content.databases)
      && SaysFlag(p, content.ignoreGlobalPriv)
  }

  /** Named compression is set; without one, what was there stays. */
  predicate Compresses(p: Payload, before: string, after: string) {
    if SaysText(p, "compression", "") then after == before else SaysText(p, "compression", after)
  }

  function KindSaid(p: Payload): Kind {
    if SaysPhysical(p) then Physical else Logical
  }

  /** Parameters are read exactly when they are readable, and as they say. */
  lemma ParametersRead(p: Payload)
    ensures ParseParameters(p).Some? <==> Readable(p)
    ensures ParseParameters(p).Some? ==>
              var q := ParseParameters(p).value;
              && KindOf(q) == KindSaid(p) && Takes(p, ContentOf(KindOf(q), q))
              && SaysText(p, "compression", q.compression)
  {
    var m := Given(p);
    if p.Document? && p.json.Obj? {
      TextRead(p, "type");
      TextRead(p, "compression");
      TextRead(p, "target");
    }
  }

  lemma TextRead(p: Payload, key: string)
    requires p.Document? && p.json.Obj?
    ensures TextField(p.json.fields, key).Some? <==> Unset(Given(p), key) || Given(p)[key].Str?
    ensures TextField(p.json.fields, key).Some? ==> SaysText(p, key, TextField(p.json.fields, key).value)
  {
  }

  /** What is said is one thing only. */
  lemma SaidOnce(p: Payload, a: Content, b: Content)
    requires Takes(p, a) && Takes(p, b)
    ensures a == b
  {
    if !SaysPhysical(p) {
      assert a.databases == b.databases;
    }
  }
}
