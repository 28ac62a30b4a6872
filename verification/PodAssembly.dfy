/**
 Assembling the pod of a container: its init containers, its containers and the
 volumes they mount, for every mix of volumes, archives and a docker socket.
 A Go map is walked in an arbitrary order.
 */
module PodAssembly {
  import opened Common
  import opened Sanitizer
  import opened Text

  datatype Mount = Mount(name: string, path: string)

  datatype PodContainer = PodContainer(name: string, mounts: seq<Mount>)

  datatype Volume = EmptyDir(name: string) | ConfigMapVolume(name: string)

  datatype PodSpec = PodSpec(initContainers: seq<PodContainer>, containers: seq<PodContainer>, volumes: seq<Volume>)

  const SETUP := "setup"
  const MAIN := "main"
  const SIDECAR := "dind-sidecar"
  const SOCKET := Mount("dind-socket", "/var/run")

  // ---- the specification ----

  /** The setup container there is, or else a new one. */
  function Setup(inits: seq<PodContainer>): (c: PodContainer)
    ensures c.name == SETUP
  {
    if inits == [] then PodContainer(SETUP, [])
    else if inits[0].name == SETUP then inits[0]
    else Setup(inits[1..])
  }

  function Mounting(c: PodContainer, mounts: seq<Mount>): PodContainer {
    c.(mounts := c.mounts + mounts)
  }

  /** The volumes added, and mounted alike in the setup container and in the first container. */
  function Added(pod: PodSpec, volumes: seq<Volume>, mounts: seq<Mount>): PodSpec
    requires pod.containers != []
  {
    PodSpec([Mounting(Setup(pod.initContainers), mounts)],
            pod.containers[0 := Mounting(pod.containers[0], mounts)],
            pod.volumes + volumes)
  }

  function FolderVolumes(folders: seq<string>): (r: seq<Volume>)
    ensures |r| == |folders|
    ensures forall i :: 0 <= i < |folders| ==> r[i] == EmptyDir(Sanitize(Name, folders[i]))
  {
    if folders == [] then [] else [EmptyDir(Sanitize(Name, folders[0]))] + FolderVolumes(folders[1..])
  }

  function FolderMounts(folders: seq<string>): (r: seq<Mount>)
    ensures |r| == |folders|
    ensures forall i :: 0 <= i < |folders| ==> r[i] == Mount(Sanitize(Name, folders[i]), folders[i])
  {
    if folders == [] then [] else [Mount(Sanitize(Name, folders[0]), folders[0])] + FolderMounts(folders[1..])
  }

  function FileMounts(name: string, files: seq<string>): (r: seq<Mount>)
    ensures |r| == |files|
    ensures forall i :: 0 <= i < |files| ==> r[i] == Mount(name, files[i])
  {
    if files == [] then [] else [Mount(name, files[0])] + FileMounts(name, files[1..])
  }

  function FileVolume(name: string, files: seq<string>): seq<Volume> {
    if files == [] then [] else [ConfigMapVolume(name)]
  }

  function SomeVolumes(folders: seq<string>, files: seq<string>): seq<Volume> {
    FolderVolumes(folders) + FileVolume("vfiles", files)
  }

  function VolumeMounts(folders: seq<string>, files: seq<string>): seq<Mount> {
    FolderMounts(folders) + FileMounts("vfiles", files)
  }

  function AfterVolumes(pod: PodSpec, folders: seq<string>, files: seq<string>): PodSpec
    requires pod.containers != []
  {
    Added(pod, SomeVolumes(folders, files), VolumeMounts(folders, files))
  }

  function AfterArchives(pod: PodSpec, files: seq<string>): PodSpec
    requires pod.containers != []
  {
    Added(pod, FileVolume("pfiles", files), FileMounts("pfiles", files))
  }

  function AfterDind(pod: PodSpec): PodSpec
    requires pod.containers != []
  {
    PodSpec(pod.initContainers,
            [PodContainer(SIDECAR, [SOCKET]), Mounting(pod.containers[0], [SOCKET])] + pod.containers[1..],
            pod.volumes + [EmptyDir(SOCKET.name)])
  }

  /** The list has the elements of the set, each once: one walk of a map. */
  ghost predicate WalkOf(walk: seq<string>, keys: set<string>) {
    && (forall k :: k in walk <==> k in keys)
    && (forall i, j :: 0 <= i < j < |walk| ==> walk[i] != walk[j])
  }

  // ---- the code ----

  class Pod {
    var initContainers: seq<PodContainer>
    var containers: seq<PodContainer>
    var volumes: seq<Volume>

    function Spec(): PodSpec
      reads this
    {
      PodSpec(initContainers, containers, volumes)
    }

    constructor (inits: seq<PodContainer>, templateVolumes: seq<Volume>)
      ensures Spec() == PodSpec(inits, [PodContainer(MAIN, [])], templateVolumes)
    {
      initContainers, containers, volumes := inits, [PodContainer(MAIN, [])], templateVolumes;
    }

    method AddSetupInitContainer() returns (c: PodContainer)
      ensures c == Setup(initContainers)
    {
      for i := 0 to |initContainers|
        invariant Setup(initContainers) == Setup(initContainers[i..])
      {
        assert initContainers[i..][1..] == initContainers[i + 1..];
        if initContainers[i].name == SETUP {
          return initContainers[i];
        }
      }
      return PodContainer(SETUP, []);
    }

    /** `setupErr` and `configErr` are the errors of the calls that are not modelled. */
    method AddVolumes(folders: set<string>, files: set<string>, setupErr: bool, configErr: bool)
      returns (err: bool, ghost folderWalk: seq<string>, ghost fileWalk: seq<string>)
      requires containers != []
      modifies this
      ensures err <==> setupErr || (files != {} && configErr)
      ensures err ==> Spec() == old(Spec())
      ensures !err ==> WalkOf(folderWalk, folders) && WalkOf(fileWalk, files)
      ensures !err ==> Spec() == AfterVolumes(old(Spec()), folderWalk, fileWalk)
    {
      folderWalk, fileWalk := [], [];
      if setupErr {
        return true, [], [];
      }
      var initContainer := AddSetupInitContainer();
      var newVolumes, mounts;
      newVolumes, mounts, folderWalk := MountFolders(folders);
      if files != {} {
        if configErr {
          return true, [], [];
        }
        newVolumes := newVolumes + [ConfigMapVolume("vfiles")];
        mounts, fileWalk := MountFiles("vfiles", files, mounts);
      } else {
        assert newVolumes + [] == newVolumes && mounts + [] == mounts;
      }
      Finish(initContainer, newVolumes, mounts);
      return false, folderWalk, fileWalk;
    }

    method AddPreArchives(files: set<string>, setupErr: bool, configErr: bool)
      returns (err: bool, ghost fileWalk: seq<string>)
      requires containers != []
      modifies this
      ensures err <==> setupErr || (files != {} && configErr)
      ensures err ==> Spec() == old(Spec())
      ensures !err ==> WalkOf(fileWalk, files) && Spec() == AfterArchives(old(Spec()), fileWalk)
    {
      fileWalk := [];
      if setupErr {
        return true, [];
      }
      var initContainer := AddSetupInitContainer();
      var newVolumes: seq<Volume>, mounts: seq<Mount> := [], [];
      if files != {} {
        if configErr {
          return true, [];
        }
        newVolumes := [ConfigMapVolume("pfiles")];
        mounts, fileWalk := MountFiles("pfiles", files, mounts);
        assert [] + FileMounts("pfiles", fileWalk) == FileMounts("pfiles", fileWalk);
      }
      Finish(initContainer, newVolumes, mounts);
      return false, fileWalk;
    }

    method Finish(initContainer: PodContainer, newVolumes: seq<Volume>, mounts: seq<Mount>)
      requires containers != [] && initContainer == Setup(initContainers)
      modifies this
      ensures Spec() == Added(old(Spec()), newVolumes, mounts)
    {
      initContainers := [initContainer.(mounts := initContainer.mounts + mounts)];
      volumes := volumes + newVolumes;
      containers := containers[0 := containers[0].(mounts := containers[0].mounts + mounts)];
    }

    method AddDindSidecar(pullPolicyErr: bool) returns (err: bool)
      requires containers != []
      modifies this
      ensures err == pullPolicyErr
      ensures Spec() == if err then old(Spec()) else AfterDind(old(Spec()))
    {
      if pullPolicyErr {
        return true;
      }
      containers := [PodContainer(SIDECAR, [])] + containers;
      var mount := SOCKET;
      volumes := volumes + [EmptyDir(mount.name)];
      containers := containers[0 := containers[0].(mounts := containers[0].mounts + [mount])];
      containers := containers[1 := containers[1].(mounts := containers[1].mounts + [mount])];
      assert [] + [mount] == [mount];
      assert containers[1..][1..] == old(containers)[1..];
      assert containers == [containers[0], containers[1]] + containers[1..][1..];
      return false;
    }
  }

  method MountFiles(name: string, files: set<string>, before: seq<Mount>)
    returns (mounts: seq<Mount>, ghost walk: seq<string>)
    ensures WalkOf(walk, files) && mounts == before + FileMounts(name, walk)
    ensures walk == [] <==> files == {}
  {
    mounts, walk := before, [];
    var left := files;
    while left != {}
      invariant left <= files && WalkOf(walk, files - left)
      invariant mounts == before + FileMounts(name, walk)
      decreases |left|
    {
      var dst :| dst in left;
      WalkStep(walk, files, left, dst);
      left := left - {dst};
      mounts := mounts + [Mount(name, dst)];
      walk := walk + [dst];
    }
    assert files - left == files;
    WalkEmpty(walk, files);
  }

  lemma WalkEmpty(walk: seq<string>, keys: set<string>)
    requires WalkOf(walk, keys)
    ensures walk == [] <==> keys == {}
  {
    if walk != [] {
      assert walk[0] in walk;
    }
    if keys != {} {
      var k :| k in keys;
      assert k in walk;
    }
  }

  method MountFolders(folders: set<string>) returns (volumes: seq<Volume>, mounts: seq<Mount>, ghost walk: seq<string>)
    ensures WalkOf(walk, folders) && volumes == FolderVolumes(walk) && mounts == FolderMounts(walk)
  {
    volumes, mounts, walk := [], [], [];
    var left := folders;
    while left != {}
      invariant left <= folders && WalkOf(walk, folders - left)
      invariant volumes == FolderVolumes(walk) && mounts == FolderMounts(walk)
      decreases |left|
    {
      var dst :| dst in left;
      WalkStep(walk, folders, left, dst);
      left := left - {dst};
      var id := Sanitize(Name, dst);
      FolderVolumesSnoc(walk, dst);
      FolderMountsSnoc(walk, dst);
      volumes := volumes + [EmptyDir(id)];
      mounts := mounts + [Mount(id, dst)];
      walk := walk + [dst];
    }
    assert folders - left == folders;
  }

  lemma FolderVolumesSnoc(folders: seq<string>, dst: string)
    ensures FolderVolumes(folders + [dst]) == FolderVolumes(folders) + [EmptyDir(Sanitize(Name, dst))]
  {
    var v, v' := FolderVolumes(folders + [dst]), FolderVolumes(folders) + [EmptyDir(Sanitize(Name, dst))];
    assert forall i :: 0 <= i < |v| ==> v[i] == v'[i];
  }

  lemma FolderMountsSnoc(folders: seq<string>, dst: string)
    ensures FolderMounts(folders + [dst]) == FolderMounts(folders) + [Mount(Sanitize(Name, dst), dst)]
  {
    var m, m' := FolderMounts(folders + [dst]), FolderMounts(folders) + [Mount(Sanitize(Name, dst), dst)];
    assert forall i :: 0 <= i < |m| ==> m[i] == m'[i];
  }

  lemma WalkStep(walk: seq<string>, keys: set<string>, left: set<string>, k: string)
    requires left <= keys && k in left && WalkOf(walk, keys - left)
    ensures WalkOf(walk + [k], keys - (left - {k}))
  {
    assert k !in walk;
  }

  // ---- the assembled pod ----

  /** What a start puts together, in the order of the calls. */
  function Assembled(inits: seq<PodContainer>, template: seq<Volume>, hasVolumes: bool, hasArchives: bool, dind: bool,
                     folders: seq<string>, files: seq<string>, archived: seq<string>): (pod: PodSpec)
    ensures pod.containers != []
  {
    var pod := PodSpec(inits, [PodContainer(MAIN, [])], template);
    WithDind(WithArchives(WithVolumes(pod, hasVolumes, folders, files), hasArchives, archived), dind)
  }

  function WithVolumes(pod: PodSpec, hasVolumes: bool, folders: seq<string>, files: seq<string>): (r: PodSpec)
    requires pod.containers != []
    ensures r.containers != []
  {
    if hasVolumes then AfterVolumes(pod, folders, files) else pod
  }

  function WithArchives(pod: PodSpec, hasArchives: bool, archived: seq<string>): (r: PodSpec)
    requires pod.containers != []
    ensures r.containers != []
  {
    if hasArchives then AfterArchives(pod, archived) else pod
  }

  function WithDind(pod: PodSpec, dind: bool): (r: PodSpec)
    requires pod.containers != []
    ensures r.containers != []
  {
    if dind then AfterDind(pod) else pod
  }

  // ---- what the container asks for ----

  /** A bind or a mount: a path of the host, and where it is to appear. */
  datatype Binding = Binding(source: string, target: string)

  /** What a path of the host is; a path that does not exist is not in the map. */
  datatype FileKind = Folder | File

  type Files = map<string, FileKind>

  const DOCKER_SOCKET := "/var/run/docker.sock"

  /** The source of each target; of several the last one counts, and mounts come after binds. */
  function Volumes(bs: seq<Binding>): map<string, string>
    decreases |bs|
  {
    if bs == [] then map[] else Volumes(bs[..|bs| - 1])[bs[|bs| - 1].target := bs[|bs| - 1].source]
  }

  lemma VolumesSnoc(bs: seq<Binding>, b: Binding)
    ensures Volumes(bs + [b]) == Volumes(bs)[b.target := b.source]
  {
    assert (bs + [b])[..|bs|] == bs;
  }

  /** One of the two loops. */
  method AddTargets(before: map<string, string>, bs: seq<Binding>, ghost done: seq<Binding>)
    returns (volumes: map<string, string>)
    requires before == Volumes(done)
    ensures volumes == Volumes(done + bs)
  {
    volumes := before;
    assert done + bs[..0] == done;
    for i := 0 to |bs|
      invariant volumes == Volumes(done + bs[..i])
    {
      VolumesSnoc(done + bs[..i], bs[i]);
      assert done + bs[..i + 1] == (done + bs[..i]) + [bs[i]];
      volumes := volumes[bs[i].target := bs[i].source];
    }
    assert bs[..|bs|] == bs;
  }

  method GetVolumes(binds: seq<Binding>, mounts: seq<Binding>) returns (volumes: map<string, string>)
    ensures volumes == Volumes(binds + mounts)
  {
    volumes := AddTargets(map[], binds, []);
    assert [] + binds == binds;
    volumes := AddTargets(volumes, mounts, binds);
  }

  /** The last binding of a target decides. */
  ghost predicate LastOf(bs: seq<Binding>, i: int, target: string) {
    0 <= i < |bs| && bs[i].target == target && forall j :: i < j < |bs| ==> bs[j].target != target
  }

  lemma {:induction false} VolumesExactly(bs: seq<Binding>, target: string)
    ensures target in Volumes(bs) <==> exists i :: 0 <= i < |bs| && bs[i].target == target
    ensures forall i :: LastOf(bs, i, target) ==> target in Volumes(bs) && Volumes(bs)[target] == bs[i].source
    decreases |bs|
  {
    if bs != [] {
      var n := |bs| - 1;
      VolumesExactly(bs[..n], target);
      forall i | LastOf(bs, i, target) ensures target in Volumes(bs) && Volumes(bs)[target] == bs[i].source {
        assert i < n ==> LastOf(bs[..n], i, target);
      }
      if i :| 0 <= i < |bs| && bs[i].target == target {
        assert i < n ==> bs[..n][i].target == target;
      }
    }
  }

  function Folders(volumes: map<string, string>, fs: Files): set<string> {
    set dst | dst in volumes && volumes[dst] in fs && fs[volumes[dst]] == Folder
  }

  function SingleFiles(volumes: map<string, string>, fs: Files): set<string> {
    set dst | dst in volumes && volumes[dst] in fs && fs[volumes[dst]] == File && dst != DOCKER_SOCKET
  }

  /**
   The order of the calls in a start, with the errors of the calls that are not
   modelled. Whether volumes are mounted at all hangs on the binds alone.
   */
  method Assemble(inits: seq<PodContainer>, template: seq<Volume>, binds: seq<Binding>, mounts: seq<Binding>, fs: Files,
                  hasArchives: bool, archived: set<string>, disableDind: bool,
                  setupErr: bool, configErr: bool, archiveErr: bool, pullPolicyErr: bool)
    returns (pod: Pod, err: bool, ghost fo: seq<string>, ghost fi: seq<string>, ghost ar: seq<string>)
    ensures fresh(pod)
    ensures err <==>
              || (binds != [] && (setupErr || (SingleFiles(Volumes(binds + mounts), fs) != {} && configErr)))
              || (hasArchives && (setupErr || (archived != {} && archiveErr)))
              || (DOCKER_SOCKET in Volumes(binds + mounts) && !disableDind && pullPolicyErr)
    ensures !err && binds != [] ==> WalkOf(fo, Folders(Volumes(binds + mounts), fs))
    ensures !err && binds != [] ==> WalkOf(fi, SingleFiles(Volumes(binds + mounts), fs))
    ensures !err && hasArchives ==> WalkOf(ar, archived)
    ensures !err ==>
              pod.Spec() == Assembled(inits, template, binds != [], hasArchives,
                                      DOCKER_SOCKET in Volumes(binds + mounts) && !disableDind, fo, fi, ar)
  {
    pod := new Pod(inits, template);
    err, fo, fi, ar := false, [], [], [];
    var volumes := GetVolumes(binds, mounts);
    if |binds| > 0 {
      err, fo, fi := pod.AddVolumes(Folders(volumes, fs), SingleFiles(volumes, fs), setupErr, configErr);
      if err {
        return;
      }
    }
    if hasArchives {
      err, ar := pod.AddPreArchives(archived, setupErr, archiveErr);
      if err {
        return;
      }
    }
    if DOCKER_SOCKET in volumes && !disableDind {
      err := pod.AddDindSidecar(pullPolicyErr);
    }
  }

  ghost predicate Declared(volumes: seq<Volume>, name: string) {
    exists i :: 0 <= i < |volumes| && volumes[i].name == name
  }

  ghost predicate MountsDeclared(volumes: seq<Volume>, mounts: seq<Mount>) {
    forall i :: 0 <= i < |mounts| ==> Declared(volumes, mounts[i].name)
  }

  ghost predicate AllDeclared(volumes: seq<Volume>, cs: seq<PodContainer>) {
    forall i :: 0 <= i < |cs| ==> MountsDeclared(volumes, cs[i].mounts)
  }

  /** The mounts a start makes in the setup container. */
  function SetupMounts(hasVolumes: bool, hasArchives: bool, folders: seq<string>, files: seq<string>,
                       archived: seq<string>): seq<Mount>
  {
    (if hasVolumes then VolumeMounts(folders, files) else [])
    + (if hasArchives then FileMounts("pfiles", archived) else [])
  }

  /** The volumes a start declares. */
  function NewVolumes(hasVolumes: bool, hasArchives: bool, dind: bool, folders: seq<string>, files: seq<string>,
                      archived: seq<string>): seq<Volume>
  {
    (if hasVolumes then SomeVolumes(folders, files) else [])
    + (if hasArchives then FileVolume("pfiles", archived) else [])
    + (if dind then [EmptyDir(SOCKET.name)] else [])
  }

  /**
   For every mix: the setup container is there, alone, exactly when the start waits
   for it; "main" is last and the sidecar, if any, first; main has the mounts of the
   setup container and then that of the socket.
   */
  lemma AssembledShape(inits: seq<PodContainer>, template: seq<Volume>, hasVolumes: bool, hasArchives: bool, dind: bool,
                       folders: seq<string>, files: seq<string>, archived: seq<string>)
    requires forall i :: 0 <= i < |inits| ==> inits[i].name != SETUP
    ensures var pod := Assembled(inits, template, hasVolumes, hasArchives, dind, folders, files, archived);
            var mounts := SetupMounts(hasVolumes, hasArchives, folders, files, archived);
            var socket := if dind then [SOCKET] else [];
            && pod.initContainers == (if hasVolumes || hasArchives then [PodContainer(SETUP, mounts)] else inits)
            && pod.containers == (if dind then [PodContainer(SIDECAR, socket)] else []) +
              [PodContainer(MAIN, mounts + socket)]
            && pod.volumes == template + NewVolumes(hasVolumes, hasArchives, dind, folders, files, archived)
  {
    NoSetup(inits);
    var start := PodSpec(inits, [PodContainer(MAIN, [])], template);
    var some := if hasVolumes then VolumeMounts(folders, files) else [];
    var volumes := template + if hasVolumes then SomeVolumes(folders, files) else [];
    VolumesShape(start, hasVolumes, folders, files);
    var withVolumes := WithVolumes(start, hasVolumes, folders, files);
    ArchivesShape(withVolumes, inits, some, volumes, hasVolumes, hasArchives, archived);
    DindShape(WithArchives(withVolumes, hasArchives, archived),
      SetupMounts(hasVolumes, hasArchives, folders, files, archived), dind);
    VolumesTogether(template, hasVolumes, hasArchives, dind, folders, files, archived);
  }

  lemma VolumesTogether(template: seq<Volume>, hasVolumes: bool, hasArchives: bool, dind: bool,
                        folders: seq<string>, files: seq<string>, archived: seq<string>)
    ensures template + (if hasVolumes then SomeVolumes(folders, files) else [])
         + (if hasArchives then FileVolume("pfiles", archived) else [])
         + (if dind then [EmptyDir(SOCKET.name)] else [])
         == template + NewVolumes(hasVolumes, hasArchives, dind, folders, files, archived)
  {
  }

  lemma VolumesShape(start: PodSpec, hasVolumes: bool, folders: seq<string>, files: seq<string>)
    requires Plain(start, [], start.initContainers, start.volumes) &&
        Setup(start.initContainers) == PodContainer(SETUP, [])
    ensures var some := if hasVolumes then VolumeMounts(folders, files) else [];
            Plain(WithVolumes(start, hasVolumes, folders, files), some,
                  if hasVolumes then [PodContainer(SETUP, some)] else start.initContainers,
                  start.volumes + if hasVolumes then SomeVolumes(folders, files) else [])
  {
    var some := VolumeMounts(folders, files);
    assert [] + some == some && start.volumes + [] == start.volumes;
    if hasVolumes {
      AddedPlain(start, [], SomeVolumes(folders, files), some);
    }
  }

  /** Only the main container so far, with these mounts. */
  ghost predicate Plain(pod: PodSpec, mounts: seq<Mount>, inits: seq<PodContainer>, volumes: seq<Volume>) {
    pod.containers == [PodContainer(MAIN, mounts)] && pod.initContainers == inits && pod.volumes == volumes
  }

  lemma AddedPlain(pod: PodSpec, some: seq<Mount>, volumes: seq<Volume>, mounts: seq<Mount>)
    requires Plain(pod, some, pod.initContainers, pod.volumes) && Setup(pod.initContainers) == PodContainer(SETUP, some)
    ensures Plain(Added(pod, volumes, mounts), some + mounts, [PodContainer(SETUP, some + mounts)],
        pod.volumes + volumes)
  {
  }

  lemma ArchivesShape(pod: PodSpec, inits: seq<PodContainer>, some: seq<Mount>, volumes: seq<Volume>,
                      hasVolumes: bool, hasArchives: bool, archived: seq<string>)
    requires Setup(inits) == PodContainer(SETUP, []) && (hasVolumes || some == [])
    requires Plain(pod, some, if hasVolumes then [PodContainer(SETUP, some)] else inits, volumes)
    ensures var more := if hasArchives then FileMounts("pfiles", archived) else [];
            Plain(WithArchives(pod, hasArchives, archived), some + more,
                  if hasVolumes || hasArchives then [PodContainer(SETUP, some + more)] else inits,
                  volumes + if hasArchives then FileVolume("pfiles", archived) else [])
  {
    if hasArchives {
      AddedPlain(pod, some, FileVolume("pfiles", archived), FileMounts("pfiles", archived));
    } else {
      assert some + [] == some && volumes + [] == volumes;
    }
  }

  lemma DindShape(pod: PodSpec, mounts: seq<Mount>, dind: bool)
    requires pod.containers == [PodContainer(MAIN, mounts)]
    ensures var socket := if dind then [SOCKET] else [];
            WithDind(pod, dind) == PodSpec(pod.initContainers,
              (if dind then [PodContainer(SIDECAR, socket)] else []) + [PodContainer(MAIN, mounts + socket)],
              pod.volumes + if dind then [EmptyDir(SOCKET.name)] else [])
  {
    assert pod.containers[1..] == [];
    assert mounts + [] == mounts && pod.volumes + [] == pod.volumes;
  }

  lemma {:induction false} NoSetup(inits: seq<PodContainer>)
    requires forall i :: 0 <= i < |inits| ==> inits[i].name != SETUP
    ensures Setup(inits) == PodContainer(SETUP, [])
  {
    if inits != [] {
      NoSetup(inits[1..]);
    }
  }

  // ---- every mount names a declared volume ----

  lemma DeclaredConcat(a: seq<Volume>, b: seq<Volume>, name: string)
    ensures Declared(a + b, name) <==> Declared(a, name) || Declared(b, name)
  {
    if Declared(a, name) {
      var i :| 0 <= i < |a| && a[i].name == name;
      assert (a + b)[i].name == name;
    }
    if Declared(b, name) {
      var i :| 0 <= i < |b| && b[i].name == name;
      assert (a + b)[|a| + i].name == name;
    }
  }

  lemma MountsDeclaredConcat(volumes: seq<Volume>, more: seq<Volume>, a: seq<Mount>, b: seq<Mount>)
    requires MountsDeclared(volumes, a) && MountsDeclared(more, b)
    ensures MountsDeclared(volumes + more, a + b)
  {
    var all := a + b;
    forall i | 0 <= i < |all| ensures Declared(volumes + more, all[i].name) {
      DeclaredConcat(volumes, more, all[i].name);
      if i < |a| {
        assert Declared(volumes, a[i].name);
      } else {
        assert Declared(more, b[i - |a|].name);
      }
    }
  }

  lemma FilesDeclared(name: string, files: seq<string>)
    ensures MountsDeclared(FileVolume(name, files), FileMounts(name, files))
  {
    if files != [] {
      assert FileVolume(name, files)[0].name == name;
    }
  }

  lemma VolumesDeclared(folders: seq<string>, files: seq<string>)
    ensures MountsDeclared(SomeVolumes(folders, files), VolumeMounts(folders, files))
  {
    forall i | 0 <= i < |folders| ensures Declared(FolderVolumes(folders), FolderMounts(folders)[i].name) {
      assert FolderVolumes(folders)[i].name == FolderMounts(folders)[i].name;
    }
    FilesDeclared("vfiles", files);
    MountsDeclaredConcat(FolderVolumes(folders), FileVolume("vfiles", files), FolderMounts(folders),
      FileMounts("vfiles", files));
  }

  lemma NewVolumesDeclared(hasVolumes: bool, hasArchives: bool, dind: bool, folders: seq<string>, files: seq<string>,
                           archived: seq<string>)
    ensures MountsDeclared(NewVolumes(hasVolumes, hasArchives, dind, folders, files, archived),
              SetupMounts(hasVolumes, hasArchives, folders, files, archived) + if dind then [SOCKET] else [])
  {
    var v, m := if hasVolumes then SomeVolumes(folders, files) else [],
        if hasVolumes then VolumeMounts(folders, files) else [];
    var w, n := if hasArchives then FileVolume("pfiles", archived) else [],
        if hasArchives then FileMounts("pfiles", archived) else [];
    var x, o := if dind then [EmptyDir(SOCKET.name)] else [], if dind then [SOCKET] else [];
    VolumesDeclared(folders, files);
    FilesDeclared("pfiles", archived);
    MountsDeclaredConcat(v, w, m, n);
    assert dind ==> x[0].name == SOCKET.name;
    MountsDeclaredConcat(v + w, x, m + n, o);
  }

  /** In every mix, each mount of a container of the pod names a volume of the pod. */
  lemma AssembledMountsAreDeclared(inits: seq<PodContainer>, template: seq<Volume>,
                                   hasVolumes: bool, hasArchives: bool, dind: bool,
                                   folders: seq<string>, files: seq<string>, archived: seq<string>)
    requires forall i :: 0 <= i < |inits| ==> inits[i].name != SETUP
    ensures var pod := Assembled(inits, template, hasVolumes, hasArchives, dind, folders, files, archived);
            && AllDeclared(pod.volumes, pod.containers)
            && (hasVolumes || hasArchives ==> AllDeclared(pod.volumes, pod.initContainers))
  {
    AssembledShape(inits, template, hasVolumes, hasArchives, dind, folders, files, archived);
    var mounts := SetupMounts(hasVolumes, hasArchives, folders, files, archived);
    var socket := if dind then [SOCKET] else [];
    var added := NewVolumes(hasVolumes, hasArchives, dind, folders, files, archived);
    NewVolumesDeclared(hasVolumes, hasArchives, dind, folders, files, archived);
    MountsDeclaredConcat(template, added, [], mounts + socket);
    assert [] + (mounts + socket) == mounts + socket;
    PartsDeclared(template + added, mounts, socket);
  }

  lemma PartsDeclared(volumes: seq<Volume>, a: seq<Mount>, b: seq<Mount>)
    requires MountsDeclared(volumes, a + b)
    ensures MountsDeclared(volumes, a) && MountsDeclared(volumes, b)
  {
    forall i | 0 <= i < |a| ensures Declared(volumes, a[i].name) {
      assert (a + b)[i] == a[i];
    }
    forall i | 0 <= i < |b| ensures Declared(volumes, b[i].name) {
      assert (a + b)[|a| + i] == b[i];
    }
  }

  // ---- volume names ----

  ghost predicate DistinctNames(volumes: seq<Volume>) {
    forall i, j :: 0 <= i < j < |volumes| ==> volumes[i].name != volumes[j].name
  }

  lemma DistinctConcat(a: seq<Volume>, b: seq<Volume>)
    ensures DistinctNames(a + b)
       <==> DistinctNames(a) && DistinctNames(b) && forall i :: 0 <= i < |b| ==> !Declared(a, b[i].name)
  {
    var c := a + b;
    if DistinctNames(c) {
      forall i, j | 0 <= i < j < |b| ensures b[i].name != b[j].name {
        assert c[|a| + i] == b[i] && c[|a| + j] == b[j];
      }
      forall i, j | 0 <= i < j < |a| ensures a[i].name != a[j].name {
        assert c[i] == a[i] && c[j] == a[j];
      }
      forall i | 0 <= i < |b| ensures !Declared(a, b[i].name) {
        forall k | 0 <= k < |a| ensures a[k].name != b[i].name {
          assert c[k] == a[k] && c[|a| + i] == b[i];
        }
      }
    }
  }

  /** The volumes with fixed names. */
  function FixedVolumes(hasVolumes: bool, hasArchives: bool, dind: bool, files: seq<string>,
                        archived: seq<string>): seq<Volume>
  {
    (if hasVolumes then FileVolume("vfiles", files) else [])
    + (if hasArchives then FileVolume("pfiles", archived) else [])
    + (if dind then [EmptyDir(SOCKET.name)] else [])
  }

  lemma FixedAreDistinct(hasVolumes: bool, hasArchives: bool, dind: bool, files: seq<string>, archived: seq<string>)
    ensures DistinctNames(FixedVolumes(hasVolumes, hasArchives, dind, files, archived))
  {
    assert |"vfiles"| != |SOCKET.name| && |"pfiles"| != |SOCKET.name| && "vfiles"[0] != "pfiles"[0];
  }

  /** The volume name of each folder. */
  function FolderNames(folders: set<string>): (names: map<string, string>)
    ensures names.Keys == folders
  {
    map f | f in folders :: Sanitize(Name, f)
  }

  ghost predicate Injective(names: map<string, string>) {
    forall f, g :: f in names && g in names && names[f] == names[g] ==> f == g
  }

  /** No name is that of a given volume. */
  ghost predicate Avoids(names: map<string, string>, others: seq<Volume>) {
    forall f :: f in names ==> !Declared(others, names[f])
  }

  ghost predicate VolumesAvoid(volumes: seq<Volume>, others: seq<Volume>) {
    forall i :: 0 <= i < |volumes| ==> !Declared(others, volumes[i].name)
  }

  /**
   Different folders have different names, their names and the fixed ones are not
   those of a volume of the template, and no folder takes a fixed name in use.
   */
  ghost predicate NamesClear(template: seq<Volume>, names: map<string, string>, fixed: seq<Volume>) {
    && DistinctNames(template) && Injective(names) && VolumesAvoid(fixed, template)
    && Avoids(names, template) && Avoids(names, fixed)
  }

  /** One volume for each folder, in some order. */
  ghost predicate VolumesOf(volumes: seq<Volume>, walk: seq<string>, names: map<string, string>) {
    && WalkOf(walk, names.Keys) && |volumes| == |walk|
    && forall i :: 0 <= i < |walk| ==> walk[i] in names && volumes[i].name == names[walk[i]]
  }

  lemma WalkMeets(volumes: seq<Volume>, walk: seq<string>, names: map<string, string>, f: string) returns (i: nat)
    requires VolumesOf(volumes, walk, names) && f in names
    ensures i < |walk| && walk[i] == f && volumes[i].name == names[f]
  {
    assert f in walk;
    i :| 0 <= i < |walk| && walk[i] == f;
  }

  lemma DistinctIsInjective(volumes: seq<Volume>, walk: seq<string>, names: map<string, string>)
    requires VolumesOf(volumes, walk, names)
    ensures DistinctNames(volumes) <==> Injective(names)
  {
    if DistinctNames(volumes) {
      forall f, g | f in names && g in names && names[f] == names[g] ensures f == g {
        var i := WalkMeets(volumes, walk, names, f);
        var j := WalkMeets(volumes, walk, names, g);
      }
    }
    if Injective(names) {
      forall i, j | 0 <= i < j < |volumes| ensures volumes[i].name != volumes[j].name {
        assert walk[i] != walk[j];
      }
    }
  }

  lemma AvoidsExactly(volumes: seq<Volume>, walk: seq<string>, names: map<string, string>, others: seq<Volume>)
    requires VolumesOf(volumes, walk, names)
    ensures VolumesAvoid(volumes, others) <==> Avoids(names, others)
  {
    if VolumesAvoid(volumes, others) {
      forall f | f in names ensures !Declared(others, names[f]) {
        var i := WalkMeets(volumes, walk, names, f);
      }
    }
  }

  lemma AvoidSymmetric(a: seq<Volume>, b: seq<Volume>)
    requires VolumesAvoid(a, b)
    ensures VolumesAvoid(b, a)
  {
    forall i | 0 <= i < |b| ensures !Declared(a, b[i].name) {
      forall j | 0 <= j < |a| ensures a[j].name != b[i].name {
        assert !Declared(b, a[j].name);
      }
    }
  }

  lemma AvoidConcat(a: seq<Volume>, b: seq<Volume>, c: seq<Volume>)
    ensures VolumesAvoid(b + c, a) <==> VolumesAvoid(b, a) && VolumesAvoid(c, a)
  {
    var d := b + c;
    if VolumesAvoid(d, a) {
      forall i | 0 <= i < |b| ensures !Declared(a, b[i].name) {
        assert d[i] == b[i];
      }
      forall i | 0 <= i < |c| ensures !Declared(a, c[i].name) {
        assert d[|b| + i] == c[i];
      }
    }
  }

  lemma NamesClearExactly(template: seq<Volume>, volumes: seq<Volume>, walk: seq<string>, names: map<string, string>,
                          fixed: seq<Volume>)
    requires VolumesOf(volumes, walk, names) && DistinctNames(fixed)
    ensures DistinctNames(template + (volumes + fixed)) <==> NamesClear(template, names, fixed)
  {
    DistinctConcat(template, volumes + fixed);
    DistinctConcat(volumes, fixed);
    AvoidConcat(template, volumes, fixed);
    DistinctIsInjective(volumes, walk, names);
    AvoidsExactly(volumes, walk, names, template);
    AvoidsExactly(volumes, walk, names, fixed);
    if VolumesAvoid(volumes, fixed) {
      AvoidSymmetric(volumes, fixed);
    }
    if VolumesAvoid(fixed, volumes) {
      AvoidSymmetric(fixed, volumes);
    }
  }

  /**
   The names of the volumes of the pod differ exactly when the folders of the container are
   clear of each other and the rest.
   */
  lemma VolumeNamesUniqueExactly(inits: seq<PodContainer>, template: seq<Volume>,
                                 hasVolumes: bool, hasArchives: bool, dind: bool,
                                 walk: seq<string>, folders: set<string>, files: seq<string>, archived: seq<string>)
    requires WalkOf(walk, folders) && forall i :: 0 <= i < |inits| ==> inits[i].name != SETUP
    ensures DistinctNames(Assembled(inits, template, hasVolumes, hasArchives, dind, walk, files, archived).volumes)
       <==> NamesClear(template, if hasVolumes then FolderNames(folders) else map[],
         FixedVolumes(hasVolumes, hasArchives, dind, files, archived))
  {
    AssembledShape(inits, template, hasVolumes, hasArchives, dind, walk, files, archived);
    FixedAreDistinct(hasVolumes, hasArchives, dind, files, archived);
    NewVolumesSplit(hasVolumes, hasArchives, dind, walk, files, archived);
    var fixed := FixedVolumes(hasVolumes, hasArchives, dind, files, archived);
    if hasVolumes {
      FolderVolumesOf(walk, folders);
      NamesClearExactly(template, FolderVolumes(walk), walk, FolderNames(folders), fixed);
    } else {
      NamesClearExactly(template, [], [], map[], fixed);
    }
  }

  lemma FolderVolumesOf(walk: seq<string>, folders: set<string>)
    requires WalkOf(walk, folders)
    ensures VolumesOf(FolderVolumes(walk), walk, FolderNames(folders))
  {
    var names := FolderNames(folders);
    forall i | 0 <= i < |walk| ensures walk[i] in names && FolderVolumes(walk)[i].name == names[walk[i]] {
      assert walk[i] in walk;
    }
  }

  lemma NewVolumesSplit(hasVolumes: bool, hasArchives: bool, dind: bool, walk: seq<string>, files: seq<string>,
                        archived: seq<string>)
    ensures NewVolumes(hasVolumes, hasArchives, dind, walk, files, archived)
         == (if hasVolumes then FolderVolumes(walk) else []) +
           FixedVolumes(hasVolumes, hasArchives, dind, files, archived)
  {
  }

  // ---- folders that collide ----

  lemma DropSlash(s: string)
    requires s != "" && IsAlnum(s[0])
    ensures DropLeading(['/'] + s, NotAlnum) == s
  {
    assert (['/'] + s)[1..] == s;
  }

  lemma InnerSlash(a: string, b: string)
    requires Conforms(Name, a) && Conforms(Name, b)
    ensures Without(a + ['/'] + b, NotAllowed(Name)) == a + b
  {
    WithoutMiddle(a, '/', b, NotAllowed(Name));
  }

  /** The slash between two short names is lost: "/a/b" and "/ab" always take the same volume name. */
  lemma FoldersCollide(a: string, b: string)
    requires Conforms(Name, a) && Conforms(Name, b) && a != "" && b != "" && |a| + |b| < MAX_LENGTH
    ensures Sanitize(Name, ['/'] + (a + ['/'] + b)) == a + b
    ensures Sanitize(Name, ['/'] + (a + b)) == a + b
  {
    CollideInner(a, b);
    CollideOuter(a + b);
  }

  lemma CollideInner(a: string, b: string)
    requires Conforms(Name, a) && Conforms(Name, b) && a != "" && b != "" && |a| + |b| < MAX_LENGTH
    ensures Sanitize(Name, ['/'] + (a + ['/'] + b)) == a + b
    ensures Conforms(Name, a + b)
  {
    DropSlash(a + ['/'] + b);
    InnerSlash(a, b);
    assert !In((a + b)[|a + b| - 1], Separator(Name));
    assert DropTrailing(a + b, Separator(Name)) == a + b;
  }

  lemma CollideOuter(s: string)
    requires Conforms(Name, s) && s != ""
    ensures Sanitize(Name, ['/'] + s) == s
  {
    DropSlash(s);
    CleanFixes(Name, s);
    assert DropLeading(s, NotAlnum) == s;
  }

  /** A folder called like one of the fixed volumes takes its name. */
  lemma FolderTakesFixedName(s: string)
    requires s == "vfiles" || s == "pfiles" || s == SOCKET.name
    ensures Sanitize(Name, ['/'] + s) == s
  {
    assert forall i :: 0 <= i < |s| ==> Allowed(Name, s[i]);
    assert Conforms(Name, s);
    CollideOuter(s);
  }

  // ---- folders that are not mounted ----

  /** The main container, last in the pod, mounts the folder's own volume at the folder's path. */
  ghost predicate IsMounted(pod: PodSpec, from: nat, folder: string)
    requires pod.containers != [] && from <= |pod.volumes|
  {
    && Mount(Sanitize(Name, folder), folder) in pod.containers[|pod.containers| - 1].mounts
    && EmptyDir(Sanitize(Name, folder)) in pod.volumes[from..]
  }

  ghost predicate AllMounted(pod: PodSpec, from: nat, folders: set<string>)
    requires pod.containers != [] && from <= |pod.volumes|
  {
    forall f :: f in folders ==> IsMounted(pod, from, f)
  }

  lemma MountedWithVolumes(folders: seq<string>, f: string, files: seq<string>)
    requires f in folders
    ensures Mount(Sanitize(Name, f), f) in VolumeMounts(folders, files)
    ensures EmptyDir(Sanitize(Name, f)) in SomeVolumes(folders, files)
  {
    var i :| 0 <= i < |folders| && folders[i] == f;
    assert VolumeMounts(folders, files)[i] == Mount(Sanitize(Name, f), f);
    assert SomeVolumes(folders, files)[i] == EmptyDir(Sanitize(Name, f));
  }

  /** The socket is the only folder a start without binds declares, and it is mounted elsewhere. */
  lemma NotMountedWithoutVolumes(hasArchives: bool, dind: bool, archived: seq<string>, f: string)
    ensures var volumes := NewVolumes(false, hasArchives, dind, [], [], archived);
            var mounts := SetupMounts(false, hasArchives, [], [], archived) + if dind then [SOCKET] else [];
            !(Mount(Sanitize(Name, f), f) in mounts && EmptyDir(Sanitize(Name, f)) in volumes)
  {
    var volumes := NewVolumes(false, hasArchives, dind, [], [], archived);
    var mounts := SetupMounts(false, hasArchives, [], [], archived) + if dind then [SOCKET] else [];
    if EmptyDir(Sanitize(Name, f)) in volumes && Mount(Sanitize(Name, f), f) in mounts {
      assert Sanitize(Name, f) == SOCKET.name;
      assert |SOCKET.name| != |"pfiles"|;
      assert f == "/var/run";
      RunFolderName();
      assert false;
    }
  }

  lemma RunFolderName()
    ensures Sanitize(Name, "/var/run") != SOCKET.name
  {
    var s := "var/run";
    DropSlash(s);
    assert ['/'] + s == "/var/run";
    assert |Clean(Name, "/var/run")| <= |s| < |SOCKET.name|;
  }

  /** The main container mounts the file from the configmap of the files. */
  ghost predicate IsFileMounted(pod: PodSpec, from: nat, file: string)
    requires pod.containers != [] && from <= |pod.volumes|
  {
    && Mount("vfiles", file) in pod.containers[|pod.containers| - 1].mounts
    && ConfigMapVolume("vfiles") in pod.volumes[from..]
  }

  lemma FolderMountsExactly(walk: seq<string>, files: seq<string>, archived: seq<string>, hasArchives: bool, dind: bool,
                            f: string)
    requires f in walk
    ensures Mount(Sanitize(Name, f), f)
         in SetupMounts(true, hasArchives, walk, files, archived) + if dind then [SOCKET] else []
    ensures EmptyDir(Sanitize(Name, f)) in NewVolumes(true, hasArchives, dind, walk, files, archived)
  {
    MountedWithVolumes(walk, f, files);
  }

  /** What is mounted of a folder and of a file, for any walk of the folders and of the files. */
  lemma FolderMounted(inits: seq<PodContainer>, template: seq<Volume>, hasVolumes: bool, hasArchives: bool, dind: bool,
                      walk: seq<string>, files: seq<string>, archived: seq<string>, f: string)
    requires forall i :: 0 <= i < |inits| ==> inits[i].name != SETUP
    requires f in walk || !hasVolumes
    ensures var pod := Assembled(inits, template, hasVolumes, hasArchives, dind, walk, files, archived);
            |template| <= |pod.volumes| && (IsMounted(pod, |template|, f) <==> hasVolumes)
  {
    var pod := Assembled(inits, template, hasVolumes, hasArchives, dind, walk, files, archived);
    AssembledShape(inits, template, hasVolumes, hasArchives, dind, walk, files, archived);
    var added := NewVolumes(hasVolumes, hasArchives, dind, walk, files, archived);
    assert pod.volumes[|template|..] == added;
    if hasVolumes {
      FolderMountsExactly(walk, files, archived, hasArchives, dind, f);
    } else {
      NotMountedWithoutVolumes(hasArchives, dind, archived, f);
    }
  }

  lemma FileMounted(inits: seq<PodContainer>, template: seq<Volume>, hasVolumes: bool, hasArchives: bool, dind: bool,
                    walk: seq<string>, files: seq<string>, archived: seq<string>, f: string)
    requires forall i :: 0 <= i < |inits| ==> inits[i].name != SETUP
    requires f !in walk || !hasVolumes
    ensures var pod := Assembled(inits, template, hasVolumes, hasArchives, dind, walk, files, archived);
            |template| <= |pod.volumes| && (IsFileMounted(pod, |template|, f) <==> hasVolumes && f in files)
  {
    var pod := Assembled(inits, template, hasVolumes, hasArchives, dind, walk, files, archived);
    AssembledShape(inits, template, hasVolumes, hasArchives, dind, walk, files, archived);
    assert pod.volumes[|template|..] == NewVolumes(hasVolumes, hasArchives, dind, walk, files, archived);
    FixedNamesDiffer();
    if hasVolumes {
      FileMountsExactly(walk, files, archived, hasArchives, dind, f);
    }
  }

  /**
   Exactly when a start mounts a folder the container asks for: there is a bind. A
   container with mounts only gets none of its folders.
   */
  lemma {:induction false} FolderMountedExactly(inits: seq<PodContainer>, template: seq<Volume>, binds: seq<Binding>,
                                                mounts: seq<Binding>, fs: Files, hasArchives: bool, dind: bool,
                                                walk: seq<string>, files: seq<string>, archived: seq<string>,
                                                f: string)
    requires forall i :: 0 <= i < |inits| ==> inits[i].name != SETUP
    requires binds != [] ==> WalkOf(walk, Folders(Volumes(binds + mounts), fs))
    requires f in Folders(Volumes(binds + mounts), fs)
    ensures var pod := Assembled(inits, template, binds != [], hasArchives, dind, walk, files, archived);
            |template| <= |pod.volumes| && (IsMounted(pod, |template|, f) <==> binds != [])
  {
    FolderMounted(inits, template, binds != [], hasArchives, dind, walk, files, archived, f);
  }

  /**
   Exactly when a start mounts a file: there is a bind, and the target is asked for, its
   source a file, and not the docker socket. Targets that are folders have names of
   their own (`FoldersCollide`, `FolderTakesFixedName`).
   */
  lemma {:induction false} FileMountedExactly(inits: seq<PodContainer>, template: seq<Volume>, binds: seq<Binding>,
                                              mounts: seq<Binding>, fs: Files, hasArchives: bool, dind: bool,
                                              walk: seq<string>, files: seq<string>, archived: seq<string>, f: string)
    requires forall i :: 0 <= i < |inits| ==> inits[i].name != SETUP
    requires binds != [] ==> WalkOf(walk, Folders(Volumes(binds + mounts), fs))
    requires binds != [] ==> WalkOf(files, SingleFiles(Volumes(binds + mounts), fs))
    requires f !in Folders(Volumes(binds + mounts), fs)
    ensures var pod := Assembled(inits, template, binds != [], hasArchives, dind, walk, files, archived);
            var volumes := Volumes(binds + mounts);
            && |template| <= |pod.volumes|
            && (IsFileMounted(pod, |template|, f)
                <==> binds != [] && f in volumes && volumes[f] in fs && fs[volumes[f]] == File && f != DOCKER_SOCKET)
  {
    FileMounted(inits, template, binds != [], hasArchives, dind, walk, files, archived, f);
  }

  lemma FixedNamesDiffer()
    ensures "vfiles" != "pfiles" && "vfiles" != SOCKET.name && "pfiles" != SOCKET.name
  {
    assert "vfiles"[0] != "pfiles"[0] && |"vfiles"| != |SOCKET.name|;
  }

  lemma MountOfFile(walk: seq<string>, name: string, files: seq<string>, more: seq<Mount>, f: string)
    requires f !in walk && forall i :: 0 <= i < |more| ==> more[i].name != name
    ensures Mount(name, f) in FolderMounts(walk) + FileMounts(name, files) + more <==> f in files
  {
    var m := Mount(name, f);
    if f in files {
      var i :| 0 <= i < |files| && files[i] == f;
      assert FileMounts(name, files)[i] == m;
    }
    assert forall i :: 0 <= i < |walk| ==> FolderMounts(walk)[i].path == walk[i];
  }

  lemma FileMountsExactly(walk: seq<string>, files: seq<string>, archived: seq<string>, hasArchives: bool, dind: bool,
                          f: string)
    requires f !in walk
    ensures var mounts := SetupMounts(true, hasArchives, walk, files, archived) + if dind then [SOCKET] else [];
            Mount("vfiles", f) in mounts <==> f in files
    ensures f in files ==> ConfigMapVolume("vfiles") in NewVolumes(true, hasArchives, dind, walk, files, archived)
  {
    FixedNamesDiffer();
    var others := (if hasArchives then FileMounts("pfiles", archived) else []) + if dind then [SOCKET] else [];
    MountOfFile(walk, "vfiles", files, others, f);
    assert SetupMounts(true, hasArchives, walk, files, archived) + (if dind then [SOCKET] else [])
        == VolumeMounts(walk, files) + others;
    if f in files {
      assert ConfigMapVolume("vfiles") in FileVolume("vfiles", files);
    }
  }

  /** So every folder is mounted if and only if there is a bind, or there is no folder. */
  lemma {:induction false} FoldersMountedExactly(inits: seq<PodContainer>, template: seq<Volume>, binds: seq<Binding>,
                                                 mounts: seq<Binding>, fs: Files, hasArchives: bool, dind: bool,
                                                 walk: seq<string>, files: seq<string>, archived: seq<string>)
    requires forall i :: 0 <= i < |inits| ==> inits[i].name != SETUP
    requires binds != [] ==> WalkOf(walk, Folders(Volumes(binds + mounts), fs))
    ensures var pod := Assembled(inits, template, binds != [], hasArchives, dind, walk, files, archived);
            && |template| <= |pod.volumes|
            && (AllMounted(pod, |template|, Folders(Volumes(binds + mounts), fs))
                <==> binds != [] || Folders(Volumes(binds + mounts), fs) == {})
  {
    var folders := Folders(Volumes(binds + mounts), fs);
    AssembledShape(inits, template, binds != [], hasArchives, dind, walk, files, archived);
    var pod := Assembled(inits, template, binds != [], hasArchives, dind, walk, files, archived);
    forall f | f in folders ensures IsMounted(pod, |template|, f) <==> binds != [] {
      FolderMountedExactly(inits, template, binds, mounts, fs, hasArchives, dind, walk, files, archived, f);
    }
    if folders != {} {
      var f :| f in folders;
    }
  }

  /** Such a container: one mount of a folder, and no bind. */
  lemma MountOnlyIsIgnored(source: string, target: string)
    ensures Folders(Volumes([] + [Binding(source, target)]), map[source := Folder]) == {target}
  {
    var b := Binding(source, target);
    assert [] + [b] == [b] && [b][..0] == [];
    assert Volumes([b]) == Volumes([])[target := source] == map[target := source];
  }
}
