/** The event side of the Docker check: `_pre_aggregate_events` groups the
    API events per image, newest first, and `_format_events` turns each group
    into one Datadog event. */
module DockerEvents {
  import opened Wrappers
  import opened Text
  import opened DockerTags
  import opened DockerContainers

  /** The keys of a Docker API event that the check reads; `from` (the image)
      is missing from some events. */
  datatype Event = Event(id: string, status: string, from: Option<string>, time: int)

  /** Whether an event takes part in the aggregation, given the ids whose
      events are dropped. */
  predicate Kept(e: Event, dropped: set<string>) {
    e.id !in dropped && e.from.Some?
  }

  /** The kept events of one image, in arrival order: the reference the
      aggregation is compared with. */
  function Selected(events: seq<Event>, dropped: set<string>, image: string): (r: seq<Event>)
    ensures |r| <= |events|
    ensures forall i :: 0 <= i < |r| ==> Kept(r[i], dropped) && r[i].from == Some(image)
    decreases |events|
  {
    if events == [] then []
    else
      var e := events[|events| - 1];
      Selected(events[..|events| - 1], dropped, image) + (if Kept(e, dropped) && e.from == Some(image) then [e] else [])
  }

  function Reverse<T>(s: seq<T>): (r: seq<T>)
    ensures |r| == |s|
    ensures forall i :: 0 <= i < |s| ==> r[i] == s[|s| - 1 - i]
    decreases |s|
  {
    if s == [] then [] else [s[|s| - 1]] + Reverse(s[..|s| - 1])
  }

  lemma ReverseSnoc<T>(s: seq<T>, x: T)
    ensures Reverse(s + [x]) == [x] + Reverse(s)
  {
    assert (s + [x])[..|s|] == s;
  }

  /** One iteration of the loop of `_pre_aggregate_events`: a kept event is
      inserted at the front of its image's list. */
  function Insert(acc: map<string, seq<Event>>, e: Event, dropped: set<string>): map<string, seq<Event>> {
    if !Kept(e, dropped) then acc
    else
      var image := e.from.value;
      acc[image := [e] + (if image in acc then acc[image] else [])]
  }

  /** The whole loop: every image's list ends up newest first. */
  function Aggregate(events: seq<Event>, dropped: set<string>): (r: map<string, seq<Event>>)
    ensures forall image :: image in r <==> |Selected(events, dropped, image)| > 0
    ensures forall image :: image in r ==> r[image] == Reverse(Selected(events, dropped, image))
    decreases |events|
  {
    if events == [] then map[]
    else
      var acc := Aggregate(events[..|events| - 1], dropped);
      InsertStep(events, dropped, acc);
      Insert(acc, events[|events| - 1], dropped)
  }

  lemma InsertStep(events: seq<Event>, dropped: set<string>, acc: map<string, seq<Event>>)
    requires |events| > 0
    requires forall image :: image in acc <==> |Selected(events[..|events| - 1], dropped, image)| > 0
    requires forall image :: image in acc ==> acc[image] == Reverse(Selected(events[..|events| - 1], dropped, image))
    ensures forall image :: image in Insert(acc, events[|events| - 1], dropped) <==>
              |Selected(events, dropped, image)| > 0
    ensures forall image :: image in Insert(acc, events[|events| - 1], dropped) ==>
              Insert(acc, events[|events| - 1], dropped)[image] == Reverse(Selected(events, dropped, image))
  {
    forall image
      ensures image in Insert(acc, events[|events| - 1], dropped) <==> |Selected(events, dropped, image)| > 0
      ensures image in Insert(acc, events[|events| - 1], dropped) ==>
                Insert(acc, events[|events| - 1], dropped)[image] == Reverse(Selected(events, dropped, image))
    {
      InsertStepAt(events, dropped, acc, image);
    }
  }

  /** `InsertStep` for one image. */
  lemma InsertStepAt(events: seq<Event>, dropped: set<string>, acc: map<string, seq<Event>>, image: string)
    requires |events| > 0
    requires image in acc <==> |Selected(events[..|events| - 1], dropped, image)| > 0
    requires image in acc ==> acc[image] == Reverse(Selected(events[..|events| - 1], dropped, image))
    ensures image in Insert(acc, events[|events| - 1], dropped) <==> |Selected(events, dropped, image)| > 0
    ensures image in Insert(acc, events[|events| - 1], dropped) ==>
              Insert(acc, events[|events| - 1], dropped)[image] == Reverse(Selected(events, dropped, image))
  {
    var e := events[|events| - 1];
    var sel := Selected(events[..|events| - 1], dropped, image);
    var r := Insert(acc, e, dropped);
    if Kept(e, dropped) && e.from == Some(image) {
      assert Selected(events, dropped, image) == sel + [e];
      var before := if image in acc then acc[image] else [];
      assert before == Reverse(sel);
      assert r[image] == [e] + before;
      ReverseSnoc(sel, e);
    } else {
      assert Selected(events, dropped, image) == sel;
      assert image in r <==> image in acc;
      assert image in acc ==> r[image] == acc[image];
    }
  }

  /** `_pre_aggregate_events` as written: an event is dropped when
      `containers_by_id.get(event['id'], {})` carries the `_is_filtered`
      mark, so the ids it can drop are those of marked entries of the index. */
  function MarkedInIndex(byId: map<string, Listed>): set<string> {
    set id | id in byId && byId[id].excluded
  }

  function PreAggregateAsWritten(events: seq<Event>, byId: map<string, Listed>): (r: map<string, seq<Event>>)
    ensures forall image :: image in r ==> r[image] == Reverse(Selected(events, MarkedInIndex(byId), image))
    ensures forall image :: image in r <==> |Selected(events, MarkedInIndex(byId), image)| > 0
  {
    Aggregate(events, MarkedInIndex(byId))
  }

  /** But the index `_get_and_count_containers` returns never holds an
      excluded container, so as written no event is ever dropped for its
      container: the aggregation is the same as with no exclusion at all. */
  lemma AsWrittenDropsNoContainer(cs: seq<Listed>, events: seq<Event>)
    requires CountContainers(cs).Success?
    ensures PreAggregateAsWritten(events, CountContainers(cs).value.byId) == Aggregate(events, {})
  {
    var byId := CountContainers(cs).value.byId;
    assert MarkedInIndex(byId) == {};
  }

  /** The intended `_pre_aggregate_events`: events of the containers the
      filter excluded are dropped. */
  function PreAggregate(events: seq<Event>, cs: seq<Listed>): (r: map<string, seq<Event>>)
    ensures forall image :: image in r ==> r[image] == Reverse(Selected(events, ExcludedIds(cs), image))
    ensures forall image :: image in r <==> |Selected(events, ExcludedIds(cs), image)| > 0
    ensures forall image, i :: image in r && 0 <= i < |r[image]| ==> r[image][i].id !in ExcludedIds(cs)
  {
    Aggregate(events, ExcludedIds(cs))
  }

  /** The discrepancy on the smallest input: one container, excluded by the
      filter, and one event of that container with an image.  As written the
      event is reported under its image; as intended it is dropped. */
  lemma ExcludedContainerEventReported(c: Listed, e: Event)
    requires Countable(c) && c.excluded
    requires c.entity.id == Some(e.id) && e.from.Some?
    ensures CountContainers([c]).Success?
    ensures PreAggregateAsWritten([e], CountContainers([c]).value.byId) == map[e.from.value := [e]]
    ensures PreAggregate([e], [c]) == map[]
  {
    AsWrittenKeepsEvent(c, e);
    CorrectedDropsEvent(c, e);
  }

  lemma AsWrittenKeepsEvent(c: Listed, e: Event)
    requires Countable(c) && c.excluded && e.from.Some?
    ensures CountContainers([c]).Success?
    ensures PreAggregateAsWritten([e], CountContainers([c]).value.byId) == map[e.from.value := [e]]
  {
    assert AllCountable([c]);
    AsWrittenDropsNoContainer([c], [e]);
    AggregateOne(e, {});
    assert [e] + [] == [e];
  }

  lemma CorrectedDropsEvent(c: Listed, e: Event)
    requires c.excluded && c.entity.id == Some(e.id)
    ensures PreAggregate([e], [c]) == map[]
  {
    assert [c][0] == c;
    assert e.id in ExcludedIds([c]);
    AggregateOne(e, ExcludedIds([c]));
  }

  lemma AggregateOne(e: Event, dropped: set<string>)
    ensures Aggregate([e], dropped) == Insert(map[], e, dropped)
  {
    assert [e][..0] == [];
  }

  /** The label of a status change: the container's first name without its
      slashes when the container is indexed, otherwise the short id. */
  function ChangeName(id: string, byId: map<string, Listed>): (r: Result<string, TagError>)
    ensures id !in byId ==> r == Success(id[..if |id| < 11 then |id| else 11])
    ensures id in byId && byId[id].entity.names.None? ==> r == Failure(KeyError("Names"))
    ensures id in byId && byId[id].entity.names == Some([]) ==> r == Failure(IndexError)
    // an indexed name is the first name with the runs of slashes at both ends removed
    ensures id in byId && byId[id].entity.names.Some? && |byId[id].entity.names.value| > 0 ==>
      && r.Success?
      && exists k :: StripsAt(byId[id].entity.names.value[0], {'/'}, k, r.value)
  {
    if id !in byId then Success(Take(id, 11))
    else
      var names := byId[id].entity.names;
      if names.None? then Failure(KeyError("Names"))
      else if |names.value| == 0 then Failure(IndexError)
      else Success(Strip(names.value[0], {'/'}))
  }

  /** What `_format_events` keeps of a group: the newest timestamp, the
      per-status counts, and the ordered (container, status) changes. */
  datatype Formatted = Formatted(timestamp: int, statusCounts: multiset<string>, changes: seq<(string, string)>)

  function Statuses(group: seq<Event>): (r: seq<string>)
    ensures |r| == |group| && forall i :: 0 <= i < |group| ==> r[i] == group[i].status
  {
    seq(|group|, i requires 0 <= i < |group| => group[i].status)
  }

  /** One iteration of the inner loop of `_format_events`. */
  function FormatStep(p: Formatted, e: Event, name: string): Formatted {
    Formatted(if e.time > p.timestamp then e.time else p.timestamp,
              p.statusCounts + multiset{e.status},
              p.changes + [(name, e.status)])
  }

  /** What a formatted group says about its events: the timestamp is the
      newest event time but never below zero, there is one count per event by
      status, and one change per event, in order. */
  ghost predicate Describes(group: seq<Event>, byId: map<string, Listed>, f: Formatted) {
    && NewestTime(group, f.timestamp)
    && f.statusCounts == multiset(Statuses(group))
    && LabelsMatch(group, byId, f.changes)
  }

  /** One change per event, in order, each labelled by `ChangeName`. */
  ghost predicate LabelsMatch(group: seq<Event>, byId: map<string, Listed>, changes: seq<(string, string)>) {
    && |changes| == |group|
    && forall i :: 0 <= i < |group| ==>
         ChangeName(group[i].id, byId).Success? && changes[i] == (ChangeName(group[i].id, byId).value, group[i].status)
  }

  ghost predicate NewestTime(group: seq<Event>, t: int) {
    && t >= 0
    && (forall i :: 0 <= i < |group| ==> group[i].time <= t)
    && (t != 0 ==> exists i :: 0 <= i < |group| && group[i].time == t)
  }

  /** The inner loop of `_format_events` over one image's group. */
  function FormatGroup(group: seq<Event>, byId: map<string, Listed>): (r: Result<Formatted, TagError>)
    ensures r.Success? <==> AllNamed(group, byId)
    ensures r.Success? ==> Describes(group, byId, r.value)
    decreases |group|
  {
    if group == [] then Success(Formatted(0, multiset{}, []))
    else
      var n := |group| - 1;
      var prev := FormatGroup(group[..n], byId);
      var name := ChangeName(group[n].id, byId);
      NamesSplit(group, byId);
      if prev.Failure? then Failure(prev.error)
      else if name.Failure? then Failure(name.error)
      else
        FormatStepDescribes(group, byId, prev.value);
        Success(FormatStep(prev.value, group[n], name.value))
  }

  /** Every event of the group has a change label. */
  predicate AllNamed(group: seq<Event>, byId: map<string, Listed>) {
    forall i :: 0 <= i < |group| ==> ChangeName(group[i].id, byId).Success?
  }

  lemma NamesSplit(group: seq<Event>, byId: map<string, Listed>)
    requires |group| > 0
    ensures AllNamed(group, byId) <==>
            AllNamed(group[..|group| - 1], byId) && ChangeName(group[|group| - 1].id, byId).Success?
  {
    assert forall i :: 0 <= i < |group| - 1 ==> group[..|group| - 1][i] == group[i];
  }

  lemma FormatStepDescribes(group: seq<Event>, byId: map<string, Listed>, p: Formatted)
    requires |group| > 0 && Describes(group[..|group| - 1], byId, p)
    requires ChangeName(group[|group| - 1].id, byId).Success?
    ensures Describes(group, byId,
              FormatStep(p, group[|group| - 1], ChangeName(group[|group| - 1].id, byId).value))
  {
    var n := |group| - 1;
    NewestTimeStep(group, p.timestamp);
    assert Statuses(group) == Statuses(group[..n]) + [group[n].status];
    ChangesStep(group, byId, p.changes);
  }

  lemma ChangesStep(group: seq<Event>, byId: map<string, Listed>, changes: seq<(string, string)>)
    requires |group| > 0 && LabelsMatch(group[..|group| - 1], byId, changes)
    requires ChangeName(group[|group| - 1].id, byId).Success?
    ensures LabelsMatch(group, byId,
              changes + [(ChangeName(group[|group| - 1].id, byId).value, group[|group| - 1].status)])
  {
    var n := |group| - 1;
    var changes' := changes + [(ChangeName(group[n].id, byId).value, group[n].status)];
    forall i | 0 <= i < n
      ensures ChangeName(group[i].id, byId).Success? && changes'[i] == (ChangeName(group[i].id, byId).value, group[i].status)
    {
      assert group[..n][i] == group[i];
      assert changes'[i] == changes[i];
    }
  }

  lemma NewestTimeStep(group: seq<Event>, t: int)
    requires |group| > 0 && NewestTime(group[..|group| - 1], t)
    ensures NewestTime(group, if group[|group| - 1].time > t then group[|group| - 1].time else t)
  {
    var n := |group| - 1;
    assert forall i :: 0 <= i < n ==> group[..n][i] == group[i];
    if group[n].time <= t && t != 0 {
      var i :| 0 <= i < n && group[..n][i].time == t;
      assert group[i].time == t;
    }
  }

  /** `_format_events` over every group; any exception (here a missing
      name) makes `_process_events` drop all the events of the run. */
  function FormatEvents(groups: map<string, seq<Event>>, byId: map<string, Listed>)
    : (r: Option<map<string, Formatted>>)
    ensures r.Some? <==> forall image :: image in groups ==> FormatGroup(groups[image], byId).Success?
    ensures r.Some? ==> r.value.Keys == groups.Keys
    ensures r.Some? ==> forall image :: image in groups ==>
              |r.value[image].changes| == |groups[image]| == |r.value[image].statusCounts|
    ensures r.Some? ==> forall image :: image in groups ==> Describes(groups[image], byId, r.value[image])
  {
    if forall image :: image in groups ==> FormatGroup(groups[image], byId).Success? then
      Some(map image | image in groups :: FormatGroup(groups[image], byId).value)
    else None
  }

  /** Containers indexed by the counting loop always have a first name, so
      formatting against that index never fails. */
  lemma FormatWithCountedIndex(cs: seq<Listed>, groups: map<string, seq<Event>>)
    requires CountContainers(cs).Success?
    ensures FormatEvents(groups, CountContainers(cs).value.byId).Some?
  {
    var byId := CountContainers(cs).value.byId;
    forall id | id in byId
      ensures byId[id].entity.names.Some? && |byId[id].entity.names.value| > 0
    {
      var i :| 0 <= i < |cs| && cs[i] == byId[id];
      assert Countable(cs[i]);
    }
  }
}
