/** Tags of Docker API entities (containers and images): the `TAG_EXTRACTORS`
    table, the per-entity cache of `_extract_tag_value`, `_get_tags`, and the
    running-status test. */
module DockerTags {
  import opened Wrappers
  import opened Text

  /** The fields of an API result that the extractors read, each `None` when
      the key is missing from the dictionary, and the `_tag_values` cache. */
  datatype Entity = Entity(
    image: Option<string>,
    repoTags: Option<seq<string>>,
    command: Option<string>,
    names: Option<seq<string>>,
    id: Option<string>,
    status: Option<string>,
    tagValues: map<string, string>)

  /** The exceptions an extractor can raise. */
  datatype TagError = KeyError(key: string) | IndexError

  const DOCKER_IMAGE: string := "docker_image"
  const IMAGE_NAME: string := "image_name"
  const IMAGE_TAG: string := "image_tag"
  const CONTAINER_COMMAND: string := "container_command"
  const CONTAINER_NAME: string := "container_name"

  /** The keys of `TAG_EXTRACTORS`. */
  predicate Supported(tagName: string) {
    tagName in {DOCKER_IMAGE, IMAGE_NAME, IMAGE_TAG, CONTAINER_COMMAND, CONTAINER_NAME}
  }

  /** The image reference the image extractors split: `Image` when the key is
      present, otherwise the first of `RepoTags`. */
  function ImageRef(e: Entity): (r: Result<string, TagError>)
    ensures e.image.Some? ==> r == Success(e.image.value)
    ensures e.image.None? && e.repoTags.None? ==> r == Failure(KeyError("RepoTags"))
    ensures e.image.None? && e.repoTags == Some([]) ==> r == Failure(IndexError)
    ensures e.image.None? && e.repoTags.Some? && |e.repoTags.value| > 0 ==>
              r == Success(e.repoTags.value[0])
  {
    if e.image.Some? then Success(e.image.value)
    else if e.repoTags.None? then Failure(KeyError("RepoTags"))
    else if |e.repoTags.value| == 0 then Failure(IndexError)
    else Success(e.repoTags.value[0])
  }

  /** One entry of `TAG_EXTRACTORS`, before the `.strip()` that
      `_extract_tag_value` applies. */
  function RawTagValue(e: Entity, tagName: string): (r: Result<string, TagError>)
    requires Supported(tagName)
  {
    if tagName == DOCKER_IMAGE then
      if e.image.Some? then Success(e.image.value) else Failure(KeyError("Image"))
    else if tagName == IMAGE_NAME then
      var ref :- ImageRef(e);
      Success(SplitFirst(ref, ':').head)
    else if tagName == IMAGE_TAG then
      var ref :- ImageRef(e);
      var parts := SplitFirst(ref, ':');
      if parts.rest.Some? then Success(parts.rest.value) else Failure(IndexError)
    else if tagName == CONTAINER_COMMAND then
      if e.command.Some? then Success(e.command.value) else Failure(KeyError("Command"))
    else
      if e.names.None? then Failure(KeyError("Names"))
      else if |e.names.value| > 0 then Success(LStrip(e.names.value[0], {'/'}))
      else if e.id.Some? then Success(Take(e.id.value, 11))
      else Failure(KeyError("Id"))
  }

  /** `image_name` and `image_tag` are the two sides of the first ':' of the
      image reference, so joining them gives the reference back; a reference
      without ':' has a name but no tag. */
  lemma ImageNameAndTagSplitReference(e: Entity)
    requires ImageRef(e).Success?
    ensures RawTagValue(e, IMAGE_NAME).Success?
    ensures ':' !in RawTagValue(e, IMAGE_NAME).value
    ensures ':' in ImageRef(e).value ==>
      && RawTagValue(e, IMAGE_TAG).Success?
      && RawTagValue(e, IMAGE_NAME).value + ":" + RawTagValue(e, IMAGE_TAG).value == ImageRef(e).value
    ensures ':' !in ImageRef(e).value ==>
      && RawTagValue(e, IMAGE_NAME).value == ImageRef(e).value
      && RawTagValue(e, IMAGE_TAG) == Failure(IndexError)
  {
  }

  /** `container_name`: the first name without its leading slashes, or the
      short (11-character) id when the container has no names; a missing
      `Names` or `Id` key raises `KeyError`. */
  lemma ContainerNameChoice(e: Entity)
    ensures e.names.None? ==> RawTagValue(e, CONTAINER_NAME) == Failure(KeyError("Names"))
    // the name is what is left of the first name once its run of leading
    // slashes is removed, and it does not start with a slash
    ensures e.names.Some? && |e.names.value| > 0 ==>
      var n := e.names.value[0];
      var v := RawTagValue(e, CONTAINER_NAME).value;
      && RawTagValue(e, CONTAINER_NAME).Success?
      && v == n[|n| - |v|..]
      && (forall i :: 0 <= i < |n| - |v| ==> n[i] == '/')
      && (|v| > 0 ==> v[0] != '/')
    ensures e.names == Some([]) && e.id.Some? ==>
      RawTagValue(e, CONTAINER_NAME) == Success(e.id.value[..if |e.id.value| < 11 then |e.id.value| else 11])
    ensures e.names == Some([]) && e.id.None? ==> RawTagValue(e, CONTAINER_NAME) == Failure(KeyError("Id"))
  {
  }

  /** What `_extract_tag_value` returns (`None` for an unsupported tag name,
      or the exception it raises) and the entity with its cache afterwards. */
  datatype Extraction = Extraction(entity: Entity, value: Result<Option<string>, TagError>)

  function ExtractTagValue(e: Entity, tagName: string): (r: Extraction)
    // unsupported names: `None`, and the cache is not touched
    ensures !Supported(tagName) ==> r == Extraction(e, Success(None))
    // a cached value is returned as is, without looking at the fields again
    ensures Supported(tagName) && tagName in e.tagValues ==>
              r == Extraction(e, Success(Some(e.tagValues[tagName])))
    // otherwise the stripped extractor result, now cached; a failing extractor
    // caches nothing
    ensures Supported(tagName) && tagName !in e.tagValues ==>
      match RawTagValue(e, tagName)
      case Success(v) =>
        && r.value == Success(Some(Strip(v, Whitespace)))
        && r.entity == e.(tagValues := e.tagValues[tagName := Strip(v, Whitespace)])
      case Failure(err) => r == Extraction(e, Failure(err))
    // nothing but the cache ever changes, and cached entries are never replaced
    ensures r.entity == e.(tagValues := r.entity.tagValues)
    ensures forall k :: k in e.tagValues ==> k in r.entity.tagValues && r.entity.tagValues[k] == e.tagValues[k]
  {
    if !Supported(tagName) then Extraction(e, Success(None))
    else if tagName in e.tagValues then Extraction(e, Success(Some(e.tagValues[tagName])))
    else
      match RawTagValue(e, tagName)
      case Failure(err) => Extraction(e, Failure(err))
      case Success(v) =>
        var value := Strip(v, Whitespace);
        Extraction(e.(tagValues := e.tagValues[tagName := value]), Success(Some(value)))
  }

  /** Memoisation: a second extraction returns the same value and leaves the
      entity as the first one left it. */
  lemma ExtractTagValueIdempotent(e: Entity, tagName: string)
    requires ExtractTagValue(e, tagName).value.Success?
    ensures ExtractTagValue(ExtractTagValue(e, tagName).entity, tagName) == ExtractTagValue(e, tagName)
  {
  }

  /** Once cached, a value no longer depends on the entity's fields: the API
      result may change under it and the tag stays the same. */
  lemma CachedValueIgnoresFields(e: Entity, e': Entity, tagName: string)
    requires Supported(tagName) && e'.tagValues == e.tagValues
    requires ExtractTagValue(e, tagName).value.Success?
    ensures ExtractTagValue(ExtractTagValue(e, tagName).entity.(image := e'.image, repoTags := e'.repoTags,
              command := e'.command, names := e'.names, id := e'.id), tagName).value
            == ExtractTagValue(e, tagName).value
  {
  }

  /** `'%s:%s' % (tag_name, value)`, where Python prints `None` as "None". */
  function FormatTag(tagName: string, value: Option<string>): (t: string)
    ensures StartsWith(t, tagName + ":")
    ensures |t| == |tagName| + 1 + (if value.Some? then |value.value| else 4)
    ensures t[|tagName| + 1..] == if value.Some? then value.value else "None"
  {
    tagName + ":" + (if value.Some? then value.value else "None")
  }

  /** The extractors read the API fields only, never the cache. */
  lemma RawTagValueIgnoresCache(e: Entity, cache: map<string, string>)
    ensures forall k :: Supported(k) ==> RawTagValue(e.(tagValues := cache), k) == RawTagValue(e, k)
  {
  }

  /** `e'` is `e` with its cache grown by stripped extractor results only. */
  ghost predicate CacheGrown(e: Entity, e': Entity) {
    && e' == e.(tagValues := e'.tagValues)
    && (forall k :: k in e.tagValues ==> k in e'.tagValues && e'.tagValues[k] == e.tagValues[k])
    && (forall k :: k in e'.tagValues && k !in e.tagValues ==>
          && Supported(k) && RawTagValue(e, k).Success?
          && e'.tagValues[k] == Strip(RawTagValue(e, k).value, Whitespace))
  }

  lemma CacheGrownTrans(e: Entity, e': Entity, e'': Entity)
    requires CacheGrown(e, e') && CacheGrown(e', e'')
    ensures CacheGrown(e, e'')
  {
    RawTagValueIgnoresCache(e, e'.tagValues);
  }

  /** Some requested name is neither cached nor extractable. */
  ghost predicate SomeUnextractable(e: Entity, tagNames: seq<string>) {
    exists i :: 0 <= i < |tagNames| && Supported(tagNames[i]) && tagNames[i] !in e.tagValues
                && RawTagValue(e, tagNames[i]).Failure?
  }

  /** After a successful extraction of the first name, the remaining names
      are unextractable from the grown entity iff all of them were from `e`. */
  lemma SomeUnextractableStep(e: Entity, tagNames: seq<string>)
    requires tagNames != [] && ExtractTagValue(e, tagNames[0]).value.Success?
    ensures SomeUnextractable(e, tagNames) <==> SomeUnextractable(ExtractTagValue(e, tagNames[0]).entity, tagNames[1..])
  {
    var e' := ExtractTagValue(e, tagNames[0]).entity;
    RawTagValueIgnoresCache(e, e'.tagValues);
    if SomeUnextractable(e, tagNames) {
      var i :| 0 <= i < |tagNames| && Supported(tagNames[i]) && tagNames[i] !in e.tagValues
               && RawTagValue(e, tagNames[i]).Failure?;
      assert i != 0;
      assert tagNames[1..][i - 1] == tagNames[i];
    }
    if SomeUnextractable(e', tagNames[1..]) {
      var i :| 0 <= i < |tagNames[1..]| && Supported(tagNames[1..][i]) && tagNames[1..][i] !in e'.tagValues
               && RawTagValue(e', tagNames[1..][i]).Failure?;
      assert tagNames[i + 1] == tagNames[1..][i];
    }
  }

  datatype Tagging = Tagging(entity: Entity, tags: Result<seq<string>, TagError>)

  /** `_get_tags`: one "name:value" tag per requested name, in order, filling
      the entity's cache on the way; the first failing extractor aborts. */
  function GetTags(e: Entity, tagNames: seq<string>): (r: Tagging)
    ensures r.tags.Success? ==> |r.tags.value| == |tagNames|
    ensures r.tags.Success? ==> forall i :: 0 <= i < |tagNames| ==> StartsWith(r.tags.value[i], tagNames[i] + ":")
    // only the cache changes: old entries are kept and every new one is the
    // stripped extractor result of the entity's fields
    ensures CacheGrown(e, r.entity)
    // every supported name ends up cached, and each tag carries the cached
    // value of its name, or "None" for a name no extractor knows
    ensures r.tags.Success? ==> TaggedFrom(tagNames, r.tags.value, r.entity.tagValues)
    // tagging fails exactly when some requested name is neither cached nor
    // extractable
    ensures r.tags.Failure? <==> SomeUnextractable(e, tagNames)
    decreases |tagNames|
  {
    if tagNames == [] then Tagging(e, Success([]))
    else
      var x := ExtractTagValue(e, tagNames[0]);
      match x.value
      case Failure(err) =>
        assert SomeUnextractable(e, tagNames);
        Tagging(x.entity, Failure(err))
      case Success(v) =>
        var rest := GetTags(x.entity, tagNames[1..]);
        assert CacheGrown(e, x.entity);
        CacheGrownTrans(e, x.entity, rest.entity);
        SomeUnextractableStep(e, tagNames);
        match rest.tags
        case Failure(err) => Tagging(rest.entity, Failure(err))
        case Success(tags) =>
          var cache := rest.entity.tagValues;
          assert TaggedFrom(tagNames[1..], tags, cache);
          TaggedFromCons(tagNames, FormatTag(tagNames[0], v), tags, cache);
          Tagging(rest.entity, Success([FormatTag(tagNames[0], v)] + tags))
  }

  /** `tags` are the tags of `tagNames` formatted from `cache`, which holds
      every supported one of them. */
  ghost predicate TaggedFrom(tagNames: seq<string>, tags: seq<string>, cache: map<string, string>) {
    && |tags| == |tagNames|
    && (forall i :: 0 <= i < |tagNames| && Supported(tagNames[i]) ==> tagNames[i] in cache)
    && (forall i :: 0 <= i < |tagNames| ==>
          tags[i] == FormatTag(tagNames[i], if Supported(tagNames[i]) then Some(cache[tagNames[i]]) else None))
  }

  lemma TaggedFromCons(tagNames: seq<string>, first: string, tags: seq<string>, cache: map<string, string>)
    requires tagNames != [] && TaggedFrom(tagNames[1..], tags, cache)
    requires Supported(tagNames[0]) ==> tagNames[0] in cache
    requires first == FormatTag(tagNames[0], if Supported(tagNames[0]) then Some(cache[tagNames[0]]) else None)
    ensures TaggedFrom(tagNames, [first] + tags, cache)
  {
    forall i | 1 <= i < |tagNames|
      ensures tagNames[i] == tagNames[1..][i - 1] && ([first] + tags)[i] == tags[i - 1]
    {
    }
  }

  /** Tagging an entity a second time with the same names reuses the cache
      and yields the same tags without changing the entity again. */
  lemma {:induction false} GetTagsIdempotent(e: Entity, tagNames: seq<string>)
    requires GetTags(e, tagNames).tags.Success?
    ensures GetTags(GetTags(e, tagNames).entity, tagNames) == GetTags(e, tagNames)
    decreases |tagNames|
  {
    if tagNames != [] {
      var x := ExtractTagValue(e, tagNames[0]);
      var rest := GetTags(x.entity, tagNames[1..]);
      GetTagsIdempotent(x.entity, tagNames[1..]);
      var e2 := rest.entity;
      // the first name is already in the final cache with the same value
      assert ExtractTagValue(e2, tagNames[0]) == Extraction(e2, x.value) by {
        if Supported(tagNames[0]) {
          assert tagNames[0] in x.entity.tagValues;
        }
      }
    }
  }

  /** `_is_container_running`: the status string says "Up …" or
      "Restarting …"; a container without a status raises. */
  function IsContainerRunning(e: Entity): (r: Result<bool, TagError>)
    ensures e.status.None? <==> r == Failure(KeyError("Status"))
    ensures r.Success? ==> (r.value <==> StartsWith(e.status.value, "Up") || StartsWith(e.status.value, "Restarting"))
  {
    if e.status.None? then Failure(KeyError("Status"))
    else Success(StartsWith(e.status.value, "Up") || StartsWith(e.status.value, "Restarting"))
  }

  /** Docker's status strings: "Up 2 hours" and "Restarting (1) 3 seconds
      ago" count as running, "Exited (0) 5 minutes ago" and "Created" do not. */
  lemma RunningStatusExamples(e: Entity)
    ensures IsContainerRunning(e.(status := Some("Up 2 hours"))) == Success(true)
    ensures IsContainerRunning(e.(status := Some("Restarting (1) 3 seconds ago"))) == Success(true)
    ensures IsContainerRunning(e.(status := Some("Exited (0) 5 minutes ago"))) == Success(false)
    ensures IsContainerRunning(e.(status := Some("Created"))) == Success(false)
  {
    assert "Exited (0) 5 minutes ago"[0] != "Up"[0];
    assert "Exited (0) 5 minutes ago"[0] != "Restarting"[0];
    assert "Created"[0] != "Up"[0];
    assert "Created"[0] != "Restarting"[0];
  }
}
