/** The memory of a process tree, from one listing of all processes. */
module ProcessTree {
  import opened Collections

  datatype Line = Line(pid: int, ppid: int, rssKib: int)

  datatype Process = Process(ppid: int, rssKib: int)

  /** The pid's chain of parents reaches the root in at most n steps. */
  ghost predicate Within(rows: map<int, Process>, root: int, pid: int, n: nat)
    decreases n
  {
    pid == root || (n > 0 && pid in rows && Within(rows, root, rows[pid].ppid, n - 1))
  }

  /** The root itself, and everything whose chain of parents ends there. Parents may form
      cycles, be missing from the listing, or come after their children in it. */
  ghost predicate Descends(rows: map<int, Process>, root: int, pid: int) {
    exists n: nat :: Within(rows, root, pid, n)
  }

  /** Later lines replace earlier ones of the same process. */
  function Table(lines: seq<Line>): map<int, Process> {
    if lines == [] then map[]
    else
      var l := lines[|lines| - 1];
      Table(lines[..|lines| - 1])[l.pid := Process(l.ppid, l.rssKib)]
  }

  ghost predicate LastLine(lines: seq<Line>, pid: int, i: nat) {
    i < |lines| && lines[i].pid == pid && forall j :: i < j < |lines| ==> lines[j].pid != pid
  }

  /** A process is what the last line with its number says: the second column is its parent, the
      third its memory. */
  lemma {:induction false} LastLineCounts(lines: seq<Line>, pid: int)
    ensures pid in Table(lines) <==> exists i: nat :: LastLine(lines, pid, i)
    ensures forall i: nat :: LastLine(lines, pid, i) ==>
              pid in Table(lines) && Table(lines)[pid] == Process(lines[i].ppid, lines[i].rssKib)
  {
    if lines != [] {
      var n := |lines| - 1;
      if lines[n].pid == pid {
        assert LastLine(lines, pid, n);
      } else {
        LastLineCounts(lines[..n], pid);
        forall i: nat ensures LastLine(lines, pid, i) <==> LastLine(lines[..n], pid, i) {
        }
      }
    }
  }

  method Parse(lines: seq<Line>) returns (rows: map<int, Process>, order: seq<int>)
    ensures rows == Table(lines)
    ensures forall pid :: pid in order <==> pid in rows
  {
    rows, order := map[], [];
    for i := 0 to |lines|
      invariant rows == Table(lines[..i])
      invariant forall pid :: pid in order <==> pid in rows
    {
      assert lines[..i + 1][..i] == lines[..i];
      if lines[i].pid !in rows {
        order := order + [lines[i].pid];
      }
      rows := rows[lines[i].pid := Process(lines[i].ppid, lines[i].rssKib)];
    }
    assert lines[..|lines|] == lines;
  }

  ghost predicate Sound(rows: map<int, Process>, root: int, found: set<int>) {
    && root in found && found <= rows.Keys + {root}
    && forall pid <- found :: Descends(rows, root, pid)
  }

  predicate Settled(rows: map<int, Process>, found: set<int>, pid: int) {
    pid in rows && rows[pid].ppid in found ==> pid in found
  }

  lemma ChildDescends(rows: map<int, Process>, root: int, pid: int)
    requires pid in rows && Descends(rows, root, rows[pid].ppid)
    ensures Descends(rows, root, pid)
  {
    var n: nat :| Within(rows, root, rows[pid].ppid, n);
    assert Within(rows, root, pid, n + 1);
  }

  lemma {:induction false} ClosedIsComplete(rows: map<int, Process>, root: int, found: set<int>, pid: int, n: nat)
    requires root in found && forall p :: Settled(rows, found, p)
    requires Within(rows, root, pid, n)
    ensures pid in found
    decreases n
  {
    if pid != root {
      ClosedIsComplete(rows, root, found, rows[pid].ppid, n - 1);
      assert Settled(rows, found, pid);
    }
  }

  /** One pass over the listing. It reports a change exactly when it finds a new process. */
  method Pass(rows: map<int, Process>, order: seq<int>, root: int, before: set<int>)
    returns (found: set<int>, changed: bool)
    requires Sound(rows, root, before) && forall pid :: pid in order <==> pid in rows
    ensures Sound(rows, root, found) && before <= found
    ensures changed ==> before < found
    ensures !changed ==> found == before && forall pid :: Settled(rows, found, pid)
  {
    found, changed := before, false;
    for i := 0 to |order|
      invariant Sound(rows, root, found) && before <= found
      invariant changed ==> before < found
      invariant !changed ==> found == before && forall j :: 0 <= j < i ==> Settled(rows, found, order[j])
    {
      var pid := order[i];
      if rows[pid].ppid in found && pid !in found {
        ChildDescends(rows, root, pid);
        found := found + {pid};
        changed := true;
      }
    }
    if !changed {
      forall pid ensures Settled(rows, found, pid) {
        if pid in rows {
          var j :| 0 <= j < |order| && order[j] == pid;
        }
      }
    }
  }

  lemma SmallerGap(found: set<int>, more: set<int>, all: set<int>)
    requires found < more <= all
    ensures |all - more| < |all - found|
  {
    ProperSubsetIsSmaller(found, more);
    assert all * more == more && all * found == found;
  }

  /** The loop ends with exactly the descendants of the root, and counts each once. */
  method ProcessTreeRss(root: int, lines: seq<Line>) returns (descendants: set<int>, rssBytes: int)
    ensures forall pid :: pid in descendants <==> Descends(Table(lines), root, pid)
    ensures rssBytes == 1024 * Total(map pid | pid in descendants :: Rss(Table(lines), pid))
  {
    var rows, order := Parse(lines);
    descendants := {root};
    var changed := true;
    assert Within(rows, root, root, 0);
    while changed
      invariant Sound(rows, root, descendants)
      invariant !changed ==> forall pid :: Settled(rows, descendants, pid)
      decreases |rows.Keys + {root} - descendants|, changed
    {
      ghost var before := descendants;
      descendants, changed := Pass(rows, order, root, descendants);
      if changed {
        SmallerGap(before, descendants, rows.Keys + {root});
      }
    }
    forall pid | Descends(rows, root, pid) ensures pid in descendants {
      var n: nat :| Within(rows, root, pid, n);
      ClosedIsComplete(rows, root, descendants, pid, n);
    }
    var rssKib := Sum(map pid | pid in descendants :: Rss(rows, pid));
    rssBytes := rssKib * 1024;
  }

  /** A process that is not listed, as the root may be, counts as nothing. */
  function Rss(rows: map<int, Process>, pid: int): int {
    if pid in rows then rows[pid].rssKib else 0
  }

  /** What counts for a process is the memory on the last line with its number, or nothing. */
  lemma RssOfLastLine(lines: seq<Line>, pid: int)
    ensures (forall i :: 0 <= i < |lines| ==> lines[i].pid != pid) ==> Rss(Table(lines), pid) == 0
    ensures forall i: nat :: LastLine(lines, pid, i) ==> Rss(Table(lines), pid) == lines[i].rssKib
  {
    LastLineCounts(lines, pid);
  }
}
