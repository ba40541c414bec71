/** The call graph of reusable workflows (`scripts/workflow_contracts.py`): one depth-first
    search with a shared visited set and a chain, which accepts exactly the sound graphs. */
module WorkflowGraph {
  import opened Text

  /** `runsOn` and `timeout` say which of the two keys a job has. */
  datatype Job = Job(uses: string, runsOn: bool, timeout: bool)

  /** `triggers` is None where `on` is not a mapping; jobs are in file order. */
  datatype Workflow = Workflow(triggers: Option<set<string>>, jobs: seq<Job>)

  const PREFIX := "./.github/workflows/"

  /** The text after the last slash. */
  function FileName(reference: string): (name: string)
    ensures '/' !in name
    ensures exists k | 0 <= k <= |reference| :: name == reference[k..] && (k > 0 ==> reference[k - 1] == '/')
  {
    if '/' !in reference then assert reference == reference[0..]; reference
    else
      var name := FileName(reference[1..]);
      var k :| 0 <= k <= |reference[1..]| && name == reference[1..][k..] && (k > 0 ==> reference[1..][k - 1] == '/');
      assert name == reference[k + 1..];
      assert k == 0 ==> reference[0] == '/' || '/' in name;
      name
  }

  function Callee(job: Job): (name: Option<string>) {
    if PREFIX <= job.uses then Some(FileName(job.uses)) else None
  }

  function Callees(jobs: seq<Job>): (names: set<string>) {
    set job | job in jobs && Callee(job).Some? :: Callee(job).value
  }

  type Graph = map<string, Workflow>

  predicate Callable(w: Workflow) {
    w.triggers.Some? && "workflow_call" in w.triggers.value && w.triggers.value <= {"workflow_call", "workflow_dispatch"}
  }

  predicate Timed(job: Job) {
    Callee(job).Some? || !job.runsOn || job.timeout
  }

  /** The rules one workflow meets on its own. */
  predicate Valid(w: Workflow) {
    Callable(w) && forall job | job in w.jobs :: Timed(job)
  }

  predicate Calls(graph: Graph, f: string, g: string) {
    f in graph && g in Callees(graph[f].jobs)
  }

  /** A chain of calls. */
  predicate IsPath(graph: Graph, p: seq<string>) {
    p != [] && forall i | 0 <= i < |p| - 1 :: Calls(graph, p[i], p[i + 1])
  }

  ghost predicate Reachable(graph: Graph, roots: seq<string>, f: string) {
    exists p: seq<string> :: IsPath(graph, p) && p[0] in roots && p[|p| - 1] == f
  }

  ghost predicate OnCycle(graph: Graph, f: string) {
    exists p: seq<string> :: IsPath(graph, p) && |p| > 1 && p[0] == f && p[|p| - 1] == f
  }

  /** Everything the validators reach exists, meets the rules and never calls itself. */
  ghost predicate Sound(graph: Graph, roots: seq<string>) {
    forall f | Reachable(graph, roots, f) :: f in graph && Valid(graph[f]) && !OnCycle(graph, f)
  }

  /** A finishing order: each member meets the rules and calls only earlier members. */
  ghost predicate Finished(graph: Graph, roots: seq<string>, order: seq<string>) {
    && (forall i | 0 <= i < |order| ::
      order[i] in graph && Valid(graph[order[i]]) && Callees(graph[order[i]].jobs) <= Members(order[..i]))
    && (forall i, j | 0 <= i < j < |order| :: order[i] != order[j])
    && (forall f | f in order :: Reachable(graph, roots, f))
  }

  function Members(s: seq<string>): (m: set<string>)
    ensures forall x :: x in m <==> x in s
  {
    set x | x in s
  }

  /** The search stands below `chain`: what was visited is finished or on the chain. */
  ghost predicate Standing(graph: Graph, roots: seq<string>, order: seq<string>, visited: set<string>, chain: seq<string>) {
    && Finished(graph, roots, order)
    && visited == Members(order) + Members(chain)
    && Members(order) !! Members(chain)
  }

  class Search {
    const graph: Graph
    var visited: set<string>
    ghost const roots: seq<string>
    ghost var order: seq<string>

    constructor (workflows: Graph, validators: seq<string>)
      ensures graph == workflows && roots == validators && visited == {} && order == []
    {
      graph, visited := workflows, {};
      roots, order := validators, [];
    }

    method Visit(filename: string, chain: seq<string>) returns (ok: bool)
      requires Standing(graph, roots, order, visited, chain)
      requires IsPath(graph, chain + [filename]) && (chain + [filename])[0] in roots
      modifies this
      ensures ok ==> Standing(graph, roots, order, visited, chain) && filename in order && old(order) <= order
      ensures ok ==> old(visited) <= visited
      ensures !ok ==> !Sound(graph, roots)
      decreases |graph.Keys - visited|
    {
      hide Sound, Standing, Valid, Reachable, IsPath, Callees, FileName, Callable;
      assert (chain + [filename])[|chain|] == filename;
      PathReaches(graph, roots, chain + [filename]);
      if filename in chain {
        ChainCycle(graph, roots, chain, filename);
        return false;
      }
      Enter(graph, roots, order, visited, chain, filename);
      if filename in visited {
        return true;
      }
      if filename !in graph {
        NotSound(graph, roots, filename);
        return false;
      }
      var workflow := graph[filename];
      if !Callable(workflow) {
        NotSound(graph, roots, filename);
        NotCallable(workflow);
        return false;
      }
      visited := visited + {filename};
      var below := chain + [filename];
      NoCallees(workflow.jobs, order);
      for k := 0 to |workflow.jobs|
        invariant Standing(graph, roots, order, visited, below) && old(order) <= order
        invariant Callees(workflow.jobs[..k]) <= Members(order)
        invariant forall job | job in workflow.jobs[..k] :: Timed(job)
        invariant old(visited) + {filename} <= visited
      {
        var job := workflow.jobs[k];
        CalleesStep(workflow.jobs, k);
        if PREFIX <= job.uses {
          Smaller(graph.Keys, visited, old(visited), filename);
          CallExtends(graph, chain, filename, job);
          ok := Visit(FileName(job.uses), below);
          if !ok {
            return;
          }
        } else if job.runsOn && !job.timeout {
          NotSound(graph, roots, filename);
          NotTimed(workflow, job);
          return false;
        }
      }
      assert workflow.jobs[..|workflow.jobs|] == workflow.jobs;
      Leave(graph, roots, order, visited, chain, filename);
      order := order + [filename];
      return true;
    }
  }

  lemma Enter(graph: Graph, roots: seq<string>, order: seq<string>, visited: set<string>, chain: seq<string>, f: string)
    requires Standing(graph, roots, order, visited, chain) && f !in chain
    ensures f in visited ==> f in order
    ensures f !in visited ==> Standing(graph, roots, order, visited + {f}, chain + [f])
  {
    hide Finished;
    assert Members(chain + [f]) == Members(chain) + {f};
  }

  lemma Leave(graph: Graph, roots: seq<string>, order: seq<string>, visited: set<string>, chain: seq<string>, f: string)
    requires Standing(graph, roots, order, visited, chain + [f]) && f !in chain && Reachable(graph, roots, f)
    requires f in graph && Callable(graph[f]) && (forall job | job in graph[f].jobs :: Timed(job))
    requires Callees(graph[f].jobs) <= Members(order)
    ensures Standing(graph, roots, order + [f], visited, chain)
  {
    hide Finished, Reachable, Callable, Callees;
    assert Members(chain + [f]) == Members(chain) + {f};
    assert Members(order + [f]) == Members(order) + {f};
    Finish(graph, roots, order, f);
  }

  lemma NoCallees(jobs: seq<Job>, order: seq<string>)
    ensures Callees(jobs[..0]) <= Members(order)
  {
  }

  lemma Smaller(all: set<string>, more: set<string>, less: set<string>, f: string)
    requires f in all && less + {f} <= more && f !in less
    ensures |all - more| < |all - less|
  {
    var (a, b) := (all - more, all - less);
    assert b == a + (b - a) && a !! (b - a);
    assert f in b - a;
  }

  lemma PathReaches(graph: Graph, roots: seq<string>, p: seq<string>)
    requires IsPath(graph, p) && p[0] in roots
    ensures Reachable(graph, roots, p[|p| - 1])
  {
  }

  lemma NotSound(graph: Graph, roots: seq<string>, f: string)
    requires Reachable(graph, roots, f)
    ensures !(f in graph && Valid(graph[f]) && !OnCycle(graph, f)) ==> !Sound(graph, roots)
  {
  }

  lemma NotCallable(w: Workflow)
    requires !Callable(w)
    ensures !Valid(w)
  {
  }

  lemma NotTimed(w: Workflow, job: Job)
    requires job in w.jobs && !Timed(job)
    ensures !Valid(w)
  {
  }

  lemma ChainCycle(graph: Graph, roots: seq<string>, chain: seq<string>, f: string)
    requires IsPath(graph, chain + [f]) && f in chain && (chain + [f])[0] in roots
    ensures !Sound(graph, roots)
  {
    var p := chain + [f];
    var i :| 0 <= i < |chain| && chain[i] == f;
    var cycle := p[i..];
    assert IsPath(graph, cycle) by {
      forall j | 0 <= j < |cycle| - 1 ensures Calls(graph, cycle[j], cycle[j + 1]) {
        assert Calls(graph, p[i + j], p[i + j + 1]);
      }
    }
    assert OnCycle(graph, f);
    PathReaches(graph, roots, p);
    NotSound(graph, roots, f);
  }

  lemma CallExtends(graph: Graph, chain: seq<string>, f: string, job: Job)
    requires IsPath(graph, chain + [f]) && f in graph && job in graph[f].jobs && Callee(job).Some?
    ensures IsPath(graph, chain + [f] + [Callee(job).value])
    ensures (chain + [f] + [Callee(job).value])[0] == (chain + [f])[0]
  {
    var (p, q) := (chain + [f], chain + [f] + [Callee(job).value]);
    forall i | 0 <= i < |q| - 1 ensures Calls(graph, q[i], q[i + 1]) {
      if i < |p| - 1 { assert Calls(graph, p[i], p[i + 1]); }
    }
  }

  lemma CalleesStep(jobs: seq<Job>, k: nat)
    requires k < |jobs|
    ensures Callees(jobs[..k + 1])
      == Callees(jobs[..k]) + (if Callee(jobs[k]).Some? then {Callee(jobs[k]).value} else {})
    ensures forall job :: job in jobs[..k + 1] <==> job in jobs[..k] || job == jobs[k]
  {
    assert jobs[..k + 1] == jobs[..k] + [jobs[k]];
  }

  /** A workflow whose callees are all finished may be finished next. */
  lemma Finish(graph: Graph, roots: seq<string>, order: seq<string>, f: string)
    requires Finished(graph, roots, order) && f !in order && Reachable(graph, roots, f)
    requires f in graph && Callable(graph[f]) && (forall job | job in graph[f].jobs :: Timed(job))
    requires Callees(graph[f].jobs) <= Members(order)
    ensures Finished(graph, roots, order + [f])
  {
    hide Reachable;
    var more := order + [f];
    forall i | 0 <= i < |more|
      ensures more[i] in graph && Valid(graph[more[i]]) && Callees(graph[more[i]].jobs) <= Members(more[..i])
    {
      assert more[..i] == order[..i];
    }
  }

  // ---------------------------------------------------------------- the whole check

  /** Along a path that starts in a finishing order, places strictly decrease. */
  lemma {:induction false} PathDescends(graph: Graph, roots: seq<string>, order: seq<string>, p: seq<string>, i: nat)
    returns (j: nat)
    requires Finished(graph, roots, order) && IsPath(graph, p) && i < |order| && p[0] == order[i]
    ensures j <= i && order[j] == p[|p| - 1] && (|p| > 1 ==> j < i)
    decreases |p|
  {
    hide Reachable, Valid;
    if |p| == 1 {
      j := i;
    } else {
      assert Calls(graph, p[0], p[1]);
      assert p[1] in Members(order[..i]);
      var k :| 0 <= k < i && order[k] == p[1];
      forall m | 0 <= m < |p[1..]| - 1 ensures Calls(graph, p[1..][m], p[1..][m + 1]) {
        assert Calls(graph, p[m + 1], p[m + 2]);
      }
      j := PathDescends(graph, roots, order, p[1..], k);
    }
  }

  /** A finishing order that has all roots is exactly what is reachable, and is sound. */
  lemma FinishedIsSound(graph: Graph, roots: seq<string>, order: seq<string>)
    requires Finished(graph, roots, order) && forall f | f in roots :: f in order
    ensures Sound(graph, roots)
    ensures forall f :: f in order <==> Reachable(graph, roots, f)
  {
    forall f | Reachable(graph, roots, f) ensures f in order && f in graph && Valid(graph[f]) && !OnCycle(graph, f) {
      var p :| IsPath(graph, p) && p[0] in roots && p[|p| - 1] == f;
      assert p[0] in order;
      var i :| 0 <= i < |order| && order[i] == p[0];
      var j := PathDescends(graph, roots, order, p, i);
      if OnCycle(graph, f) {
        var c :| IsPath(graph, c) && |c| > 1 && c[0] == f && c[|c| - 1] == f;
        var k := PathDescends(graph, roots, order, c, j);
        assert false;
      }
    }
  }

  /** The check accepts exactly the sound graphs and returns exactly what the validators reach. */
  method ValidateGraph(workflows: Graph, validators: seq<string>) returns (r: Option<set<string>>)
    ensures r.Some? <==> Sound(workflows, validators)
    ensures r.Some? ==> forall f :: f in r.value <==> Reachable(workflows, validators, f)
  {
    hide Sound, Finished, Reachable;
    var search := new Search(workflows, validators);
    NothingFinished(workflows, validators);
    for k := 0 to |validators|
      invariant Standing(workflows, validators, search.order, search.visited, [])
      invariant search.graph == workflows && search.roots == validators
      invariant forall i | 0 <= i < k :: validators[i] in search.order
    {
      assert [] + [validators[k]] == [validators[k]];
      var ok := search.Visit(validators[k], []);
      if !ok {
        return None;
      }
    }
    FinishedIsSound(workflows, validators, search.order);
    return Some(search.visited);
  }

  lemma NothingFinished(graph: Graph, roots: seq<string>)
    ensures Finished(graph, roots, [])
  {
  }
}
