/** Cgroup discovery of `utils/dockerutil.py` and the check's constructor:
    which mount of `/proc/mounts` holds a cgroup hierarchy, and which
    directory layout the container cgroups use.  The mount table arrives
    already split into rows of whitespace-separated fields; the filesystem is
    an abstract `exists` predicate. */
module CgroupMounts {
  import opened Wrappers
  import opened Text

  /** One line of `/proc/mounts`, split on whitespace: device, mount point,
      type, options, dump, pass. */
  type Row = seq<string>

  /** `Exception` of `find_cgroup` (a row too short for `x[2]`, a row that does
      not unpack into six fields, no cgroup mount, no mount for the
      hierarchy) and the `MountException` of `find_cgroup_filename_pattern`. */
  datatype MountError =
    | ShortRow
    | MalformedRow
    | NoCgroupMounts
    | NoHierarchy(hierarchy: string)
    | NoCgroupDirectory

  const HOST_PREFIX: string := "/host/"

  /** `filter(lambda x: x[2] == "cgroup", mounts)`, which raises on the first
      row with fewer than three fields. */
  function CgroupRows(mounts: seq<Row>): (r: Result<seq<Row>, MountError>)
    ensures r.Success? <==> forall i :: 0 <= i < |mounts| ==> |mounts[i]| >= 3
    ensures r.Failure? ==> r.error == ShortRow
    ensures r.Success? ==> |r.value| <= |mounts|
    ensures r.Success? ==> forall i :: 0 <= i < |r.value| ==> r.value[i] in mounts && r.value[i][2] == "cgroup"
    ensures r.Success? ==> forall i :: 0 <= i < |mounts| && mounts[i][2] == "cgroup" ==> mounts[i] in r.value
    decreases |mounts|
  {
    if mounts == [] then Success([])
    else
      var n := |mounts| - 1;
      var prev := CgroupRows(mounts[..n]);
      assert forall i :: 0 <= i < n ==> mounts[..n][i] == mounts[i];
      if prev.Failure? then prev
      else if |mounts[n]| < 3 then Failure(ShortRow)
      else if mounts[n][2] == "cgroup" then Success(prev.value + [mounts[n]])
      else prev
  }

  /** Appending a row appends it to the kept rows exactly when its type is
      `cgroup`. */
  lemma CgroupRowsSnoc(mounts: seq<Row>, row: Row)
    requires forall i :: 0 <= i < |mounts| ==> |mounts[i]| >= 3
    requires |row| >= 3
    ensures CgroupRows(mounts + [row]) == Success(CgroupRows(mounts).value + if row[2] == "cgroup" then [row] else [])
  {
    var m := mounts + [row];
    assert m[..|m| - 1] == mounts;
    assert m[|m| - 1] == row;
    var prev := CgroupRows(mounts);
    assert prev.Success?;
    assert CgroupRows(m) == if row[2] == "cgroup" then Success(prev.value + [row]) else prev;
    assert prev.value + [] == prev.value;
  }

  /** The filter distributes over concatenation: the kept rows of `a + b` are
      those of `a` followed by those of `b`, each in its own order. */
  lemma {:induction false} CgroupRowsConcat(a: seq<Row>, b: seq<Row>)
    requires forall i :: 0 <= i < |a| ==> |a[i]| >= 3
    requires forall i :: 0 <= i < |b| ==> |b[i]| >= 3
    ensures CgroupRows(a + b) == Success(CgroupRows(a).value + CgroupRows(b).value)
    decreases |b|
  {
    assert CgroupRows(a).Success?;
    if b == [] {
      assert a + b == a;
      assert CgroupRows(a).value + CgroupRows(b).value == CgroupRows(a).value;
    } else {
      var n := |b| - 1;
      var b', row := b[..n], b[n];
      assert b == b' + [row];
      assert a + b == (a + b') + [row];
      assert forall i :: 0 <= i < |b'| ==> b'[i] == b[i];
      assert forall i :: 0 <= i < |a + b'| ==> (a + b')[i] == if i < |a| then a[i] else b'[i - |a|];
      CgroupRowsConcat(a, b');
      CgroupRowsSnoc(a + b', row);
      CgroupRowsSnoc(b', row);
      var ka, kb, t := CgroupRows(a).value, CgroupRows(b').value, if row[2] == "cgroup" then [row] else [];
      ConcatAssoc(ka, kb, t);
    }
  }

  lemma ConcatAssoc(x: seq<Row>, y: seq<Row>, z: seq<Row>)
    ensures x + y + z == x + (y + z)
  {
  }

  /** The hierarchy appears (as a substring) in the mount options. */
  predicate Serves(row: Row, hierarchy: string)
    requires |row| == 6
  {
    Contains(row[3], hierarchy)
  }

  /** A mount of the hierarchy made visible under `/host/`, as when the agent
      runs in a container with the host's filesystem mounted there. */
  predicate ServesFromHost(row: Row, hierarchy: string)
    requires |row| == 6
  {
    Serves(row, hierarchy) && StartsWith(row[1], HOST_PREFIX)
  }

  /** The loop of `find_cgroup` from row `i` on, with the candidate found so
      far: the first `/host/` mount of the hierarchy is returned at once,
      otherwise the last mount of it. */
  function Scan(rows: seq<Row>, hierarchy: string, i: nat, candidate: Option<string>): (r: Result<string, MountError>)
    requires i <= |rows|
    decreases |rows| - i
  {
    if i == |rows| then
      if candidate.Some? then Success(candidate.value) else Failure(NoHierarchy(hierarchy))
    else if |rows[i]| != 6 then Failure(MalformedRow)
    else if Serves(rows[i], hierarchy) then
      if StartsWith(rows[i][1], HOST_PREFIX) then Success(rows[i][1])
      else Scan(rows, hierarchy, i + 1, Some(rows[i][1]))
    else Scan(rows, hierarchy, i + 1, candidate)
  }

  predicate WellFormed(rows: seq<Row>) {
    forall i :: 0 <= i < |rows| ==> |rows[i]| == 6
  }

  /** The first row from `i` on that serves the hierarchy from `/host/`. */
  function FirstHostMount(rows: seq<Row>, hierarchy: string, i: nat): (r: Option<nat>)
    requires WellFormed(rows) && i <= |rows|
    ensures r.Some? ==> i <= r.value < |rows| && ServesFromHost(rows[r.value], hierarchy)
    ensures r.Some? ==> forall k :: i <= k < r.value ==> !ServesFromHost(rows[k], hierarchy)
    ensures r.None? ==> forall k :: i <= k < |rows| ==> !ServesFromHost(rows[k], hierarchy)
    decreases |rows| - i
  {
    if i == |rows| then None
    else if ServesFromHost(rows[i], hierarchy) then Some(i)
    else FirstHostMount(rows, hierarchy, i + 1)
  }

  /** The last row before `j` that serves the hierarchy. */
  function LastMount(rows: seq<Row>, hierarchy: string, j: nat): (r: Option<nat>)
    requires WellFormed(rows) && j <= |rows|
    ensures r.Some? ==> r.value < j && Serves(rows[r.value], hierarchy)
    ensures r.Some? ==> forall k :: r.value < k < j ==> !Serves(rows[k], hierarchy)
    ensures r.None? ==> forall k :: 0 <= k < j ==> !Serves(rows[k], hierarchy)
    decreases j
  {
    if j == 0 then None
    else if Serves(rows[j - 1], hierarchy) then Some(j - 1)
    else LastMount(rows, hierarchy, j - 1)
  }

  /** The selection rule stated on its own: the first `/host/` mount of the
      hierarchy if there is one, else its last mount, else an error. */
  function Preferred(rows: seq<Row>, hierarchy: string): (r: Result<string, MountError>)
    requires WellFormed(rows)
  {
    match FirstHostMount(rows, hierarchy, 0)
    case Some(i) => Success(rows[i][1])
    case None =>
      match LastMount(rows, hierarchy, |rows|)
      case Some(j) => Success(rows[j][1])
      case None => Failure(NoHierarchy(hierarchy))
  }

  /** On well-formed rows the loop implements the selection rule.  The
      candidate carried into row `i` is the last mount of the hierarchy
      before `i`, and no row before `i` serves it from `/host/`. */
  lemma {:induction false} ScanFindsPreferred(rows: seq<Row>, hierarchy: string, i: nat, candidate: Option<string>)
    requires WellFormed(rows) && i <= |rows|
    requires FirstHostMount(rows, hierarchy, 0) == FirstHostMount(rows, hierarchy, i)
    requires candidate == (match LastMount(rows, hierarchy, i) case Some(j) => Some(rows[j][1]) case None => None)
    ensures Scan(rows, hierarchy, i, candidate) == Preferred(rows, hierarchy)
    decreases |rows| - i
  {
    if i < |rows| {
      if Serves(rows[i], hierarchy) && StartsWith(rows[i][1], HOST_PREFIX) {
      } else if Serves(rows[i], hierarchy) {
        assert LastMount(rows, hierarchy, i + 1) == Some(i);
        ScanFindsPreferred(rows, hierarchy, i + 1, Some(rows[i][1]));
      } else {
        assert LastMount(rows, hierarchy, i + 1) == LastMount(rows, hierarchy, i);
        ScanFindsPreferred(rows, hierarchy, i + 1, candidate);
      }
    }
  }

  lemma ScanImplementsRule(rows: seq<Row>, hierarchy: string)
    ensures WellFormed(rows) ==> Scan(rows, hierarchy, 0, None) == Preferred(rows, hierarchy)
  {
    if WellFormed(rows) {
      ScanFindsPreferred(rows, hierarchy, 0, None);
    }
  }

  /** `find_cgroup(hierarchy, docker_root)` on the rows of the mount table. */
  function FindCgroup(hierarchy: string, dockerRoot: string, mounts: seq<Row>): (r: Result<string, MountError>)
    ensures (exists i :: 0 <= i < |mounts| && |mounts[i]| < 3) ==> r == Failure(ShortRow)
    ensures CgroupRows(mounts) == Success([]) ==> r == Failure(NoCgroupMounts)
    // a single cgroup mount is taken whatever hierarchy is asked for
    ensures CgroupRows(mounts).Success? && |CgroupRows(mounts).value| == 1 ==>
              r == Success(PathJoin(dockerRoot, CgroupRows(mounts).value[0][1]))
    // several: the selection rule, on well-formed rows
    ensures CgroupRows(mounts).Success? && |CgroupRows(mounts).value| > 1 && WellFormed(CgroupRows(mounts).value) ==>
              match Preferred(CgroupRows(mounts).value, hierarchy)
              case Success(m) => r == Success(PathJoin(dockerRoot, m))
              case Failure(e) => r == Failure(e)
  {
    var rows :- CgroupRows(mounts);
    if |rows| == 0 then Failure(NoCgroupMounts)
    else if |rows| == 1 then Success(PathJoin(dockerRoot, rows[0][1]))
    else
      ScanImplementsRule(rows, hierarchy);
      var m :- Scan(rows, hierarchy, 0, None);
      Success(PathJoin(dockerRoot, m))
  }

  /** The mount table is opened at `os.path.join(docker_root, "/proc/mounts")`,
      which is `/proc/mounts` whatever the root: an absolute second argument
      makes `join` drop the first. */
  lemma MountsFileIgnoresRoot(dockerRoot: string)
    ensures PathJoin(dockerRoot, "/proc/mounts") == "/proc/mounts"
  {
  }

  /** For the same reason the root has no effect on the answer when the
      mount points are absolute, as they are in `/proc/mounts`. */
  lemma FindCgroupIgnoresRoot(hierarchy: string, root1: string, root2: string, mounts: seq<Row>)
    requires forall i :: 0 <= i < |mounts| ==> |mounts[i]| >= 2 && StartsWith(mounts[i][1], "/")
    ensures FindCgroup(hierarchy, root1, mounts) == FindCgroup(hierarchy, root2, mounts)
  {
    var rows := CgroupRows(mounts);
    if rows.Success? && |rows.value| > 1 {
      var s := Scan(rows.value, hierarchy, 0, None);
      if s.Success? {
        ScanReturnsRowMount(rows.value, hierarchy, 0, None);
        var k :| 0 <= k < |rows.value| && s.value == rows.value[k][1];
        assert rows.value[k] in mounts;
      }
    }
  }

  /** Whatever the loop returns is the mount point of one of the rows. */
  lemma {:induction false} ScanReturnsRowMount(rows: seq<Row>, hierarchy: string, i: nat, candidate: Option<string>)
    requires i <= |rows|
    requires candidate.Some? ==> exists k :: 0 <= k < |rows| && |rows[k]| >= 2 && rows[k][1] == candidate.value
    ensures Scan(rows, hierarchy, i, candidate).Success? ==>
      exists k :: 0 <= k < |rows| && |rows[k]| >= 2 && rows[k][1] == Scan(rows, hierarchy, i, candidate).value
    decreases |rows| - i
  {
    if i < |rows| && |rows[i]| == 6 {
      if Serves(rows[i], hierarchy) {
        if !StartsWith(rows[i][1], HOST_PREFIX) {
          ScanReturnsRowMount(rows, hierarchy, i + 1, Some(rows[i][1]));
        }
      } else {
        ScanReturnsRowMount(rows, hierarchy, i + 1, candidate);
      }
    }
  }

  /** The hierarchies of `CGROUP_METRICS`, in order. */
  const MEMORY: string := "memory"
  const CPUACCT: string := "cpuacct"
  const BLKIO: string := "blkio"
  const HIERARCHIES: seq<string> := [MEMORY, CPUACCT, BLKIO]

  /** `get_mountpoints`: the mount point of every metric hierarchy; the
      first hierarchy without one aborts with its error. */
  function GetMountpoints(dockerRoot: string, mounts: seq<Row>): (r: Result<map<string, string>, MountError>)
    ensures r.Success? <==> forall h :: h in HIERARCHIES ==> FindCgroup(h, dockerRoot, mounts).Success?
    ensures r.Success? ==> r.value.Keys == {MEMORY, CPUACCT, BLKIO}
    ensures r.Success? ==> forall h :: h in r.value ==> r.value[h] == FindCgroup(h, dockerRoot, mounts).value
    ensures r.Failure? ==> exists h :: h in HIERARCHIES && FindCgroup(h, dockerRoot, mounts) == Failure(r.error)
    // the error is that of the first hierarchy, in memory, cpuacct, blkio
    // order, that has no mount point
    ensures FindCgroup(MEMORY, dockerRoot, mounts).Failure? ==>
      r == Failure(FindCgroup(MEMORY, dockerRoot, mounts).error)
    ensures FindCgroup(MEMORY, dockerRoot, mounts).Success? && FindCgroup(CPUACCT, dockerRoot, mounts).Failure? ==>
      r == Failure(FindCgroup(CPUACCT, dockerRoot, mounts).error)
    ensures FindCgroup(MEMORY, dockerRoot, mounts).Success? && FindCgroup(CPUACCT, dockerRoot, mounts).Success?
            && FindCgroup(BLKIO, dockerRoot, mounts).Failure? ==>
      r == Failure(FindCgroup(BLKIO, dockerRoot, mounts).error)
  {
    var memory := FindCgroup(MEMORY, dockerRoot, mounts);
    var cpuacct := FindCgroup(CPUACCT, dockerRoot, mounts);
    var blkio := FindCgroup(BLKIO, dockerRoot, mounts);
    assert HIERARCHIES[0] == MEMORY && HIERARCHIES[1] == CPUACCT && HIERARCHIES[2] == BLKIO;
    if memory.Failure? then Failure(memory.error)
    else if cpuacct.Failure? then Failure(cpuacct.error)
    else if blkio.Failure? then Failure(blkio.error)
    else Success(map[MEMORY := memory.value, CPUACCT := cpuacct.value, BLKIO := blkio.value])
  }

  /** How container cgroups are laid out below a hierarchy's mount point. */
  datatype Layout = Lxc | Docker | SystemSlice

  /** The layout a mount point shows, probed in the order lxc, docker,
      system.slice. */
  function LayoutAt(mountpoint: string, pathExists: string -> bool): (r: Option<Layout>)
    ensures r == Some(Lxc) <==> pathExists(PathJoin(mountpoint, "lxc"))
    ensures r == Some(Docker) <==> !pathExists(PathJoin(mountpoint, "lxc")) && pathExists(PathJoin(mountpoint, "docker"))
    ensures r == Some(SystemSlice) <==>
      && !pathExists(PathJoin(mountpoint, "lxc")) && !pathExists(PathJoin(mountpoint, "docker"))
      && pathExists(PathJoin(mountpoint, "system.slice"))
  {
    if pathExists(PathJoin(mountpoint, "lxc")) then Some(Lxc)
    else if pathExists(PathJoin(mountpoint, "docker")) then Some(Docker)
    else if pathExists(PathJoin(mountpoint, "system.slice")) then Some(SystemSlice)
    else None
  }

  /** Mount point `i` is the first to show a layout. */
  predicate FirstWithLayout(mountpoints: seq<string>, pathExists: string -> bool, i: int) {
    && 0 <= i < |mountpoints|
    && LayoutAt(mountpoints[i], pathExists).Some?
    && forall j :: 0 <= j < i ==> LayoutAt(mountpoints[j], pathExists).None?
  }

  /** `find_cgroup_filename_pattern` over the mount points in the order the
      dictionary yields them: the layout of the first mount point that shows
      one, or `MountException`. */
  function FindCgroupFilenamePattern(mountpoints: seq<string>, pathExists: string -> bool): (r: Result<Layout, MountError>)
    ensures r.Failure? <==> forall i :: 0 <= i < |mountpoints| ==> LayoutAt(mountpoints[i], pathExists).None?
    ensures r.Failure? ==> r.error == NoCgroupDirectory
    ensures r.Success? ==> exists i :: FirstWithLayout(mountpoints, pathExists, i) && LayoutAt(mountpoints[i], pathExists) == Some(r.value)
    decreases |mountpoints|
  {
    if mountpoints == [] then Failure(NoCgroupDirectory)
    else
      var here := LayoutAt(mountpoints[0], pathExists);
      if here.Some? then Success(here.value)
      else
        var rest := FindCgroupFilenamePattern(mountpoints[1..], pathExists);
        if rest.Success? then
          ghost var i :| FirstWithLayout(mountpoints[1..], pathExists, i)
            && LayoutAt(mountpoints[1..][i], pathExists) == Some(rest.value);
          FirstWithLayoutShift(mountpoints, pathExists, i);
          rest
        else
          NoLayoutShift(mountpoints, pathExists);
          rest
  }

  /** A mount point without a layout in front moves the first one by one. */
  lemma FirstWithLayoutShift(mountpoints: seq<string>, pathExists: string -> bool, i: int)
    requires |mountpoints| > 0 && LayoutAt(mountpoints[0], pathExists).None?
    requires FirstWithLayout(mountpoints[1..], pathExists, i)
    ensures FirstWithLayout(mountpoints, pathExists, i + 1)
    ensures LayoutAt(mountpoints[i + 1], pathExists) == LayoutAt(mountpoints[1..][i], pathExists)
  {
    assert forall j :: 0 < j <= i ==> mountpoints[j] == mountpoints[1..][j - 1];
  }

  lemma NoLayoutShift(mountpoints: seq<string>, pathExists: string -> bool)
    requires |mountpoints| > 0 && LayoutAt(mountpoints[0], pathExists).None?
    ensures (forall i :: 0 <= i < |mountpoints| ==> LayoutAt(mountpoints[i], pathExists).None?) <==>
            (forall i :: 0 <= i < |mountpoints| - 1 ==> LayoutAt(mountpoints[1..][i], pathExists).None?)
  {
    assert forall i :: 0 < i < |mountpoints| ==> mountpoints[i] == mountpoints[1..][i - 1];
  }

  /** What the layout puts between the mount point and a container's id. */
  function LayoutPrefix(layout: Layout): string {
    match layout
    case Lxc => "/lxc/"
    case Docker => "/docker/"
    case SystemSlice => "/system.slice/docker-"
  }

  /** What the layout puts between a container's id and its stat files. */
  function LayoutSuffix(layout: Layout): string {
    if layout == SystemSlice then ".scope" else ""
  }

  /** The pattern filled in by `_get_cgroup_file`: the path of a container's
      stat file below a hierarchy's mount point. */
  function CgroupFilePath(layout: Layout, mountpoint: string, id: string, file: string): (p: string)
    ensures StartsWith(p, mountpoint + "/") && EndsWith(p, "/" + file)
    // the container's id follows the layout's directory
    ensures StartsWith(p, mountpoint + LayoutPrefix(layout) + id)
    ensures EndsWith(p, LayoutSuffix(layout) + "/" + file)
    ensures |p| == |mountpoint + LayoutPrefix(layout) + id| + (if layout == SystemSlice then 7 else 1) + |file|
  {
    var pre, suf := LayoutPrefix(layout), LayoutSuffix(layout);
    assert pre[0] == '/' && |suf| == if layout == SystemSlice then 6 else 0;
    PathAround(mountpoint, pre, id, suf, file);
    mountpoint + pre + id + suf + "/" + file
  }

  /** Where the pieces of `mountpoint + pre + id + suf + "/" + file` sit. */
  lemma {:induction false} PathAround(mountpoint: string, pre: string, id: string, suf: string, file: string)
    requires |pre| > 0 && pre[0] == '/'
    ensures var p := mountpoint + pre + id + suf + "/" + file;
      && StartsWith(p, mountpoint + "/") && EndsWith(p, "/" + file)
      && StartsWith(p, mountpoint + pre + id)
      && EndsWith(p, suf + "/" + file)
      && |p| == |mountpoint + pre + id| + |suf| + 1 + |file|
  {
    var head, tail := mountpoint + pre + id, suf + "/" + file;
    assert mountpoint + pre + id + suf + "/" + file == head + tail;
    assert (head + tail)[..|head|] == head;
    assert (head + tail)[|head|..] == tail;
    assert head[..|mountpoint| + 1] == mountpoint + "/";
    assert tail[|suf|..] == "/" + file;
  }

  /** Different containers read different files: for one hierarchy, layout
      and stat file the path determines the container id. */
  lemma CgroupFilePathInjective(layout: Layout, mountpoint: string, id: string, id': string, file: string)
    requires CgroupFilePath(layout, mountpoint, id, file) == CgroupFilePath(layout, mountpoint, id', file)
    ensures id == id'
  {
    var p := CgroupFilePath(layout, mountpoint, id, file);
    var k := |mountpoint + LayoutPrefix(layout)|;
    assert |id| == |id'|;
    assert (mountpoint + LayoutPrefix(layout) + id)[k..] == id;
    assert (mountpoint + LayoutPrefix(layout) + id')[k..] == id';
    assert p[k..k + |id|] == id && p[k..k + |id|] == id';
  }
}
