/** From a plan to the finished sequence of images: the assemble request, the assemble worker's
    downloads and the engine's concatenation all keep the order of the plan. */
module Delivery {
  import opened Wrappers
  import opened FilePaths
  import opened LE = LittleEndian
  import opened Jobs
  import opened Entry
  import opened EntryInvariant
  import opened EntryRuns
  import opened EntryTheorems
  import Artifact
  import ArtifactFiles

  /** What peers serve: artifact bytes by worker address and task id. */
  type Peers = map<(string, string), seq<byte>>

  /** Where the artifact of a task is stored while its job is assembled. */
  function LocalPath(root: string, job: string, task: string): Path {
    Join(root, ["tmp", "assemble", job, task + ".segment"])
  }

  /** For plain ids that is a file of its own under the job's directory. */
  lemma LocalPathIs(root: string, job: string, task: string)
    requires Plain(job) && |job| > 2 && Plain(task)
    ensures LocalPath(root, job, task).parts == Join(root, []).parts + ["tmp", "assemble", job, task + ".segment"]
  {
    PlainElements(root, ["tmp", "assemble", job, task + ".segment"]);
  }

  /** Different tasks are stored in different files as long as their ids have no slash. */
  lemma LocalPathInjective(root: string, job: string, t: string, u: string)
    requires Plain(t) && Plain(u)
    ensures LocalPath(root, job, t) == LocalPath(root, job, u) <==> t == u
  {
    var dir := ["tmp", "assemble", job];
    PlainLast(root, dir, t + ".segment");
    PlainLast(root, dir, u + ".segment");
    assert dir + [t + ".segment"] == ["tmp", "assemble", job, t + ".segment"];
    assert dir + [u + ".segment"] == ["tmp", "assemble", job, u + ".segment"];
    if LocalPath(root, job, t) == LocalPath(root, job, u) {
      var parts := LocalPath(root, job, t).parts;
      assert parts[|parts| - 1] == t + ".segment" == u + ".segment";
      assert t == (t + ".segment")[..|t + ".segment"| - 8] && u == (u + ".segment")[..|u + ".segment"| - 8];
    }
  }

  /** Ids with slashes could collide: every plain id has a different one that shares its file. */
  lemma LocalPathCollides(root: string, job: string, t: string)
    requires Plain(t)
    ensures "x/../" + t != t && LocalPath(root, job, "x/../" + t) == LocalPath(root, job, t)
  {
    var dir, detour, file := ["tmp", "assemble", job], "x/../", t + ".segment";
    assert |detour + t| > |t|;
    DownAndUp(root, dir, file);
    assert detour + file == (detour + t) + ".segment";
    assert dir + [detour + file] == ["tmp", "assemble", job, (detour + t) + ".segment"];
    assert dir + [file] == ["tmp", "assemble", job, file];
  }

  const HEX: string := "0123456789abcdef"

  function Hex(raw: seq<byte>): string {
    if raw == [] then "" else [HEX[raw[0] / 16], HEX[raw[0] % 16]] + Hex(raw[1..])
  }

  /** The ids Entry draws. */
  function TaskID(raw: seq<byte>): string {
    "task_" + Hex(raw)
  }

  /** They have none. */
  lemma {:induction false} TaskIDPlain(raw: seq<byte>)
    ensures Plain(Hex(raw)) && Plain(TaskID(raw))
  {
    if raw != [] {
      TaskIDPlain(raw[1..]);
    }
  }

  predicate DistinctTasks(segments: seq<SegmentRef>) {
    forall i, k :: 0 <= i < k < |segments| ==> segments[i].task != segments[k].task
  }

  /** No two segments are stored in one file. */
  predicate DistinctPaths(root: string, job: string, segments: seq<SegmentRef>) {
    forall i, k :: 0 <= i < k < |segments| ==> LocalPath(root, job, segments[i].task) != LocalPath(root, job, segments[k].task)
  }

  lemma PlainTasksApart(root: string, job: string, segments: seq<SegmentRef>)
    requires forall i :: 0 <= i < |segments| ==> Plain(segments[i].task)
    ensures DistinctPaths(root, job, segments) <==> DistinctTasks(segments)
  {
    forall i, k | 0 <= i < k < |segments|
      ensures LocalPath(root, job, segments[i].task) == LocalPath(root, job, segments[k].task) <==> segments[i].task == segments[k].task
    {
      LocalPathInjective(root, job, segments[i].task, segments[k].task);
    }
  }

  predicate Served(peers: Peers, segments: seq<SegmentRef>) {
    forall i :: 0 <= i < |segments| ==> (segments[i].address, segments[i].task) in peers
  }

  /** The artifacts a request names, in request order. */
  function Fetched(peers: Peers, segments: seq<SegmentRef>): (inputs: seq<seq<byte>>)
    requires Served(peers, segments)
    ensures |inputs| == |segments|
  {
    seq(|segments|, i requires 0 <= i < |segments| => peers[(segments[i].address, segments[i].task)])
  }

  /** The download loop of runAssembleGIF: one local file per segment, listed in request order.
      It stops at the first artifact that cannot be fetched. */
  method DownloadInputs(root: string, job: string, segments: seq<SegmentRef>, peers: Peers)
    returns (ok: bool, paths: seq<Path>, files: map<Path, seq<byte>>)
    ensures ok == Served(peers, segments)
    ensures ok && DistinctPaths(root, job, segments) ==>
              && |paths| == |segments|
              && forall i :: 0 <= i < |paths| ==> paths[i] in files && files[paths[i]] == Fetched(peers, segments)[i]
  {
    paths, files := [], map[];
    for i := 0 to |segments|
      invariant |paths| == i
      invariant forall k :: 0 <= k < i ==> (segments[k].address, segments[k].task) in peers
      invariant forall k :: 0 <= k < i ==> paths[k] == LocalPath(root, job, segments[k].task) && paths[k] in files
      invariant DistinctPaths(root, job, segments) ==>
                  forall k :: 0 <= k < i ==> files[paths[k]] == peers[(segments[k].address, segments[k].task)]
    {
      var local := LocalPath(root, job, segments[i].task);
      if (segments[i].address, segments[i].task) !in peers {
        return false, paths, files;
      }
      files := files[local := peers[(segments[i].address, segments[i].task)]];
      paths := paths + [local];
    }
    return true, paths, files;
  }

  /** The request never names a task twice. */
  lemma RequestDistinct(states: seq<System>, acts: seq<Action>, n: nat, d: nat)
    requires Run(states, acts) && n <= |acts|
    requires d in states[n].calls && states[n].calls[d].AssembleNotifying?
    ensures DistinctTasks(states[n].calls[d].segments)
  {
    RequestExact(states, acts, n, d);
    var tb, j := states[n].tables, states[n].calls[d].job;
    assert JobOk(tb, j);
    var ids := tb.jobs[j].taskIDs[..tb.jobs[j].segmentCount];
    assert forall i, k :: 0 <= i < k < |ids| ==> ids[i] != ids[k];
  }

  /** The artifacts the request names are those of the planned segments, in plan order. */
  lemma PlanServed(states: seq<System>, acts: seq<Action>, i: nat, n: nat, c: nat, d: nat,
                   peers: Peers, files: seq<Artifact.Contents>)
    requires Run(states, acts) && i < n <= |acts|
    requires acts[i] == CreateCommit(c) && c in states[i].calls && states[i].calls[c].Creating?
    requires c in states[i + 1].calls && CreatedCall(states[i + 1].calls[c])
    requires d in states[n].calls && states[n].calls[d].AssembleNotifying?
    requires states[n].calls[d].job == states[i].calls[c].job
    requires |files| == |states[i].calls[c].placed|
    requires forall k :: 0 <= k < |files| ==>
               var p := states[i].calls[c].placed[k];
               (p.address, p.id) in peers && Artifact.ReadFile(peers[(p.address, p.id)]) == Ok(files[k])
    ensures var segments := states[n].calls[d].segments;
            && Served(peers, segments) && |segments| == |files| > 0
            && ArtifactFiles.ReadsAs(Fetched(peers, segments), files)
  {
    RequestInPlanOrder(states, acts, i, n, c, d);
    Reachable(states, acts, i);
    assert CallOk(states[i].workers, states[i].tables, states[i].calls[c]);
    var segments, placed := states[n].calls[d].segments, states[i].calls[c].placed;
    forall k | 0 <= k < |segments|
      ensures (segments[k].address, segments[k].task) in peers
      ensures Artifact.ReadFile(peers[(segments[k].address, segments[k].task)]) == Ok(files[k])
    {
      assert segments[k].address == placed[k].address && segments[k].task == placed[k].id;
    }
  }

  /** End to end: if every planned segment's worker serves a complete artifact for its task, all
      of one size, the assembled images are those of the first planned segment, then the second,
      and so on, whatever the order in which the segments were completed. */
  lemma PlanOrderDelivered(states: seq<System>, acts: seq<Action>, i: nat, n: nat, c: nat, d: nat,
                           peers: Peers, files: seq<Artifact.Contents>, width: u32, height: u32)
    requires Run(states, acts) && i < n <= |acts|
    requires acts[i] == CreateCommit(c) && c in states[i].calls && states[i].calls[c].Creating?
    requires c in states[i + 1].calls && CreatedCall(states[i + 1].calls[c])
    requires d in states[n].calls && states[n].calls[d].AssembleNotifying?
    requires states[n].calls[d].job == states[i].calls[c].job
    requires |files| == |states[i].calls[c].placed| && ArtifactFiles.SameSize(files, width, height)
    requires forall k :: 0 <= k < |files| ==>
               var p := states[i].calls[c].placed[k];
               (p.address, p.id) in peers && Artifact.ReadFile(peers[(p.address, p.id)]) == Ok(files[k])
    ensures var segments := states[n].calls[d].segments;
            && Served(peers, segments) && DistinctTasks(segments) && |segments| == |files|
            && ArtifactFiles.Assembled(Fetched(peers, segments)) == Ok(ArtifactFiles.AllPayloads(files))
            && |ArtifactFiles.AllPayloads(files)| == ArtifactFiles.TotalFrames(files)
            && forall f, k :: 0 <= f < |files| && 0 <= k < |files[f].frames| ==>
                 var at := ArtifactFiles.TotalFrames(files[..f]) + k;
                 at < |ArtifactFiles.AllPayloads(files)| && ArtifactFiles.AllPayloads(files)[at] == files[f].frames[k].payload
  {
    PlanServed(states, acts, i, n, c, d, peers, files);
    RequestDistinct(states, acts, n, d);
    ArtifactFiles.AssembledIs(Fetched(peers, states[n].calls[d].segments), files, width, height);
    forall f, k | 0 <= f < |files| && 0 <= k < |files[f].frames|
      ensures var at := ArtifactFiles.TotalFrames(files[..f]) + k;
              at < |ArtifactFiles.AllPayloads(files)| && ArtifactFiles.AllPayloads(files)[at] == files[f].frames[k].payload
    {
      ArtifactFiles.AllPayloadsAt(files, f, k);
    }
  }
}
