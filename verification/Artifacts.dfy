/** Artifacts shared between steps through ConfigMaps: storeArtifactInConfigMap and
    copyArtifactFromConfigMap of pkg/controller/artifact_copy.go, and the lookup of
    fetchArtifactFromStep in pkg/controller/artifacts.go. */
module Artifacts {
  import opened Types

  type Bytes = seq<bv8>

  datatype ConfigMap = ConfigMap(data: map<string, Bytes>, binaryData: map<string, Bytes>)

  datatype Key = Key(namespace: string, name: string)

  type Store = map<Key, ConfigMap>

  /** A failed request, which the API server may or may not have carried out. */
  datatype RequestFault = RequestFault(applied: bool)

  datatype FileFault = MkdirFails | WriteFails(left: Option<Bytes>)

  datatype ArtifactError =
    | FileReadFailed | ConfigMapGetFailed | ConfigMapCreateFailed | ConfigMapUpdateFailed
    | ArtifactNotInConfigMap | MkdirFailed | FileWriteFailed

  function ConfigMapName(flow: string, step: string, artifact: string): string
  {
    flow + "-" + step + "-" + artifact
  }

  function Slot(flow: Flow, step: string, artifact: string): Key
  {
    Key(flow.namespace, ConfigMapName(flow.name, step, artifact))
  }

  /** The store after an artifact was accepted. */
  function Put(store: Store, flow: Flow, step: string, artifact: string, content: Bytes): Store
  {
    var key := Slot(flow, step, artifact);
    var found := if key in store then store[key] else ConfigMap(map[], map[]);
    store[key := found.(data := found.data[artifact := content])]
  }

  predicate Within(b: bv8, lo: bv8, hi: bv8)
  {
    lo <= b <= hi
  }

  /** Well-formed UTF-8, section 4 of RFC 3629. */
  predicate ValidUtf8(s: Bytes)
  {
    |s| == 0 ||
    (if s[0] <= 0x7F then ValidUtf8(s[1..])
     else if Within(s[0], 0xC2, 0xDF) then |s| > 1 && Within(s[1], 0x80, 0xBF) && ValidUtf8(s[2..])
     else if Within(s[0], 0xE0, 0xEF) then
       && |s| > 2
       && Within(s[1], if s[0] == 0xE0 then 0xA0 else 0x80, if s[0] == 0xED then 0x9F else 0xBF)
       && Within(s[2], 0x80, 0xBF) && ValidUtf8(s[3..])
     else if Within(s[0], 0xF0, 0xF4) then
       && |s| > 3
       && Within(s[1], if s[0] == 0xF0 then 0x90 else 0x80, if s[0] == 0xF4 then 0x8F else 0xBF)
       && Within(s[2], 0x80, 0xBF) && Within(s[3], 0x80, 0xBF) && ValidUtf8(s[4..])
     else false)
  }

  /** The content is sent as text. What arrives for content that is not valid UTF-8 is not up to
      the controller. */
  function Sent(content: Bytes, garbled: Bytes): Bytes
  {
    if ValidUtf8(content) then content else garbled
  }

  /** Where copyArtifactFromConfigMap finds an artifact. */
  function Lookup(configMap: ConfigMap, artifact: string): Option<Bytes>
  {
    if artifact in configMap.data then Some(configMap.data[artifact])
    else if artifact in configMap.binaryData then Some(configMap.binaryData[artifact])
    else if artifact + ".data" in configMap.data then Some(configMap.data[artifact + ".data"])
    else None
  }

  /** The content under the artifact's own key, as text before binary data, or else under its ".data"
      key. */
  predicate FoundIn(configMap: ConfigMap, artifact: string, content: Bytes)
  {
    || (artifact in configMap.data && content == configMap.data[artifact])
    || (artifact !in configMap.data && artifact in configMap.binaryData && content == configMap.binaryData[artifact])
    || (artifact !in configMap.data && artifact !in configMap.binaryData
        && artifact + ".data" in configMap.data && content == configMap.data[artifact + ".data"])
  }

  /** What a later step of the flow is given for an artifact; None when the store has none. */
  function Fetch(store: Store, flow: Flow, step: string, artifact: string): Option<Bytes>
  {
    var key := Slot(flow, step, artifact);
    if key in store then Lookup(store[key], artifact) else None
  }

  class Cluster {
    var configMaps: Store
    var files: map<string, Bytes>

    constructor (configMaps: Store, files: map<string, Bytes>)
      ensures this.configMaps == configMaps && this.files == files
    {
      this.configMaps, this.files := configMaps, files;
    }

    /** Artifacts over the limit are skipped without an error. */
    method StoreArtifactInConfigMap(flow: Flow, step: string, artifact: string, path: string, limit: int,
        readFails: bool, getFails: bool, fault: Option<RequestFault>, garbled: Bytes)
      returns (err: Option<ArtifactError>)
      modifies this`configMaps
      ensures err == if readFails || path !in files then Some(FileReadFailed)
                     else if |files[path]| > limit then None
                     else if getFails then Some(ConfigMapGetFailed)
                     else if fault.None? then None
                     else if Slot(flow, step, artifact) in old(configMaps) then Some(ConfigMapUpdateFailed)
                     else Some(ConfigMapCreateFailed)
      ensures configMaps == if !readFails && path in files && |files[path]| <= limit && !getFails &&
              (fault.Some? ==> fault.value.applied)
                            then Put(old(configMaps), flow, step, artifact, Sent(files[path], garbled))
                            else old(configMaps)
      ensures err.None? && |files[path]| <= limit ==>
                Fetch(configMaps, flow, step, artifact) == Some(Sent(files[path], garbled))
    {
      if readFails || path !in files {
        return Some(FileReadFailed);
      }
      var content := files[path];
      if |content| > limit {
        return None;
      }
      var key := Slot(flow, step, artifact);
      content := Sent(content, garbled);
      if getFails {
        return Some(ConfigMapGetFailed);
      }
      if key !in configMaps {
        var configMap := ConfigMap(map[artifact := content], map[]);
        if fault.None? || fault.value.applied {
          configMaps := configMaps[key := configMap];
        }
        err := if fault.Some? then Some(ConfigMapCreateFailed) else None;
      } else {
        var configMap := configMaps[key];
        configMap := configMap.(data := configMap.data[artifact := content]);
        if fault.None? || fault.value.applied {
          configMaps := configMaps[key := configMap];
        }
        err := if fault.Some? then Some(ConfigMapUpdateFailed) else None;
      }
    }

    method WriteFile(target: string, content: Bytes, fault: Option<FileFault>) returns (err: Option<ArtifactError>)
      modifies this`files
      ensures err == match fault
                     case None => None
                     case Some(MkdirFails) => Some(MkdirFailed)
                     case Some(WriteFails(_)) => Some(FileWriteFailed)
      ensures err.None? ==> files == old(files)[target := content]
      ensures files - {target} == old(files) - {target}
    {
      match fault
      case None =>
        files := files[target := content];
        err := None;
      case Some(MkdirFails) =>
        err := Some(MkdirFailed);
      case Some(WriteFails(left)) =>
        if left.Some? {
          files := files[target := left.value];
        }
        err := Some(FileWriteFailed);
    }

    method CopyArtifactFromConfigMap(configMap: ConfigMap, artifact: string, target: string, fault: Option<FileFault>)
      returns (err: Option<ArtifactError>)
      modifies this`files
      ensures err == Some(ArtifactNotInConfigMap) <==> Lookup(configMap, artifact).None?
      ensures Lookup(configMap, artifact).None? ==> files == old(files)
      ensures err.None? <==> Lookup(configMap, artifact).Some? && fault.None?
      ensures err.None? ==> files == old(files)[target := Lookup(configMap, artifact).value]
      ensures err.None? ==> target in files && FoundIn(configMap, artifact, files[target])
      ensures files - {target} == old(files) - {target}
    {
      var content: Bytes;
      if artifact in configMap.data {
        content := configMap.data[artifact];
      } else if artifact in configMap.binaryData {
        err := WriteFile(target, configMap.binaryData[artifact], fault);
        return;
      } else if artifact + ".data" in configMap.data {
        content := configMap.data[artifact + ".data"];
      } else {
        return Some(ArtifactNotInConfigMap);
      }
      err := WriteFile(target, content, fault);
    }
  }

  // Names.

  ghost predicate EndsWith(s: string, suffix: string)
  {
    |suffix| <= |s| && s[|s| - |suffix|..] == suffix
  }

  lemma NameEndsWithArtifact(flow: string, step: string, artifact: string)
    ensures EndsWith(ConfigMapName(flow, step, artifact), "-" + artifact)
  {
    assert ConfigMapName(flow, step, artifact) == (flow + "-" + step) + ("-" + artifact);
  }

  /** Two artifacts share a ConfigMap entry exactly when they have the same name and their
      flows and steps are spelled alike. */
  lemma SameEntryIff(f1: Flow, s1: string, a1: string, f2: Flow, s2: string, a2: string)
    ensures Slot(f1, s1, a1) == Slot(f2, s2, a2) && a1 == a2
            <==> f1.namespace == f2.namespace && a1 == a2 && f1.name + "-" + s1 == f2.name + "-" + s2
  {
    var p1, p2 := f1.name + "-" + s1, f2.name + "-" + s2;
    if a1 == a2 {
      assert ConfigMapName(f1.name, s1, a1) == p1 + ("-" + a1);
      assert ConfigMapName(f2.name, s2, a2) == p2 + ("-" + a2);
      if p1 + ("-" + a1) == p2 + ("-" + a1) {
        assert p1 == (p1 + ("-" + a1))[..|p1|];
        assert p2 == (p2 + ("-" + a1))[..|p2|];
      }
    }
  }

  /** So within a flow an entry belongs to one step and one artifact. */
  lemma OneFlowOneEntry(flow: Flow, s1: string, a1: string, s2: string, a2: string)
    ensures Slot(flow, s1, a1) == Slot(flow, s2, a2) && a1 == a2 <==> s1 == s2 && a1 == a2
  {
    SameEntryIff(flow, s1, a1, flow, s2, a2);
    if flow.name + "-" + s1 == flow.name + "-" + s2 {
      var k := |flow.name + "-"|;
      assert s1 == (flow.name + "-" + s1)[k..];
      assert s2 == (flow.name + "-" + s2)[k..];
    }
  }

  /** Flows of one namespace are not kept apart: a step of one can take over the entry of a
      step of another. */
  lemma FlowsCanCollide(store: Store, flow: Flow, x: string, y: string, z: string, artifact: string, c1: Bytes,
          c2: Bytes)
    requires c1 != c2
    ensures var f1, f2 := flow.(name := x), flow.(name := x + "-" + y);
            && f1 != f2
            && Fetch(Put(store, f1, y + "-" + z, artifact, c1), f1, y + "-" + z, artifact) == Some(c1)
            && Fetch(Put(Put(store, f1, y + "-" + z, artifact, c1), f2, z, artifact, c2), f1, y + "-" + z, artifact) ==
                Some(c2)
  {
    var f1, f2 := flow.(name := x), flow.(name := x + "-" + y);
    assert |f1.name| < |f2.name|;
    assert x + "-" + (y + "-" + z) == x + "-" + y + "-" + z;
    SameEntryIff(f1, y + "-" + z, artifact, f2, z, artifact);
  }

  /** No name ends both in the name of an artifact and in that name with ".data" behind it:
      the hyphen would have to repeat every five characters into ".data". */
  lemma DataSuffixIsForeign(s: string, artifact: string)
    requires EndsWith(s, "-" + artifact)
    ensures !EndsWith(s, "-" + (artifact + ".data"))
  {
    var p := "-" + artifact;
    var q := p + ".data";
    assert q == "-" + (artifact + ".data");
    if |q| <= |s| {
      var i := (|p| + 4) / 5 * 5;
      assert q[i] == ".data"[i - |p|];
      var j := HyphenBreaks(p, i);
      var tail := s[|s| - |q|..];
      assert tail[j + 5] == s[|s| - |p|..][j] == p[j];
    }
  }

  lemma {:induction false} HyphenBreaks(p: string, i: nat) returns (j: nat)
    requires |p| > 0 && p[0] == '-'
    requires i % 5 == 0 && i < |p| + 5 && (p + ".data")[i] != '-'
    ensures j < |p| && (p + ".data")[j + 5] != p[j]
    decreases i
  {
    j := i - 5;
    if (p + ".data")[i - 5] != '-' {
      j := HyphenBreaks(p, i - 5);
    }
  }

  // Runs.

  /** Every entry lies in a ConfigMap named after its key, as stores leave it. */
  ghost predicate Keyed(store: Store)
  {
    forall key :: key in store ==>
      store[key].binaryData == map[] && forall a :: a in store[key].data ==> EndsWith(key.name, "-" + a)
  }

  lemma PutKeyed(store: Store, flow: Flow, step: string, artifact: string, content: Bytes)
    requires Keyed(store)
    ensures Keyed(Put(store, flow, step, artifact, content))
  {
    NameEndsWithArtifact(flow.name, step, artifact);
  }

  /** Storing one artifact of a flow changes what is fetched for that artifact and for no
      other of the flow, even where two artifacts share a ConfigMap. */
  lemma PutThenFetch(store: Store, flow: Flow, s1: string, a1: string, content: Bytes, s2: string, a2: string)
    requires Keyed(store)
    ensures Fetch(Put(store, flow, s1, a1, content), flow, s2, a2)
            == if s1 == s2 && a1 == a2 then Some(content) else Fetch(store, flow, s2, a2)
  {
    OneFlowOneEntry(flow, s1, a1, s2, a2);
    if Slot(flow, s1, a1) == Slot(flow, s2, a2) && a1 != a2 {
      NameEndsWithArtifact(flow.name, s1, a1);
      NameEndsWithArtifact(flow.name, s2, a2);
      DataSuffixIsForeign(ConfigMapName(flow.name, s2, a2), a2);
    }
  }

  /** One attempt to store an artifact of a flow; lost when some request of it failed and
      left nothing behind. */
  datatype Attempt = Attempt(step: string, artifact: string, content: Bytes, garbled: Bytes, lost: bool)

  function Run(store: Store, flow: Flow, attempts: seq<Attempt>, limit: int): Store
    decreases |attempts|
  {
    if |attempts| == 0 then store
    else
      var before := Run(store, flow, attempts[..|attempts| - 1], limit);
      var last := attempts[|attempts| - 1];
      if last.lost || |last.content| > limit then before
      else Put(before, flow, last.step, last.artifact, Sent(last.content, last.garbled))
  }

  /** The newest content that was neither lost nor over the limit, as it was sent. */
  function Latest(attempts: seq<Attempt>, step: string, artifact: string, limit: int): Option<Bytes>
    decreases |attempts|
  {
    if |attempts| == 0 then None
    else
      var last := attempts[|attempts| - 1];
      if last.step == step && last.artifact == artifact && !last.lost && |last.content| <= limit
      then Some(Sent(last.content, last.garbled))
      else Latest(attempts[..|attempts| - 1], step, artifact, limit)
  }

  /** Over any run of a flow each step and artifact behaves as a variable of its own: what is
      fetched is the newest content stored for it, or what was there before the run. */
  lemma {:induction false} FetchIsLatest(store: Store, flow: Flow, attempts: seq<Attempt>, limit: int, step: string,
          artifact: string)
    requires Keyed(store)
    ensures Keyed(Run(store, flow, attempts, limit))
    ensures Fetch(Run(store, flow, attempts, limit), flow, step, artifact)
            == match Latest(attempts, step, artifact, limit)
               case Some(content) => Some(content)
               case None => Fetch(store, flow, step, artifact)
    decreases |attempts|
  {
    if |attempts| > 0 {
      var before := Run(store, flow, attempts[..|attempts| - 1], limit);
      var last := attempts[|attempts| - 1];
      FetchIsLatest(store, flow, attempts[..|attempts| - 1], limit, step, artifact);
      PutKeyed(before, flow, last.step, last.artifact, Sent(last.content, last.garbled));
      PutThenFetch(before, flow, last.step, last.artifact, Sent(last.content, last.garbled), step, artifact);
    }
  }
}
