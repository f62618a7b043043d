/** The values of the labelled gauges as maps from label tuples to numbers, and what a
    poll turns each of them into. A gauge with no entry for a label tuple exposes no
    series for it. */
module Series {
  import opened Pbm

  type DetailKey = (string, string)          // pbm_snapshots{name, status}
  type NodeKey = (string, string, string)    // pbm_nodes{rs, host, status}

  /** The value a series reads when it is incremented: 0 when it does not exist yet */
  function Current<K>(m: map<K, int>, k: K): int
  {
    if k in m then m[k] else 0
  }

  /** `set(0)` on every label tuple of `keys` */
  function Zeroed<K>(m: map<K, int>, keys: set<K>): map<K, int>
  {
    m + map k | k in keys :: 0
  }

  /** `set(1)` on every label tuple of `keys` */
  function Marked<K>(m: map<K, int>, keys: set<K>): map<K, int>
  {
    m + map k | k in keys :: 1
  }

  lemma TakeOneMore<T>(s: seq<T>, i: nat)
    requires i < |s|
    ensures s[..i + 1] == s[..i] + [s[i]]
  {
  }

  /** What a pre-zeroed map holds, key by key */
  lemma ZeroedAt<K>(m: map<K, int>, keys: set<K>)
    ensures Zeroed(m, keys).Keys == m.Keys + keys
    ensures forall k :: k in keys ==> Zeroed(m, keys)[k] == 0
    ensures forall k :: k in m && k !in keys ==> Zeroed(m, keys)[k] == m[k]
  {
  }

  /** What a marked map holds, key by key */
  lemma MarkedAt<K>(m: map<K, int>, keys: set<K>)
    ensures Marked(m, keys).Keys == m.Keys + keys
    ensures forall k :: k in keys ==> Marked(m, keys)[k] == 1
    ensures forall k :: k in m && k !in keys ==> Marked(m, keys)[k] == m[k]
  {
  }

  lemma ZeroedOneMore<K>(m: map<K, int>, keys: set<K>, k: K)
    ensures Zeroed(m, keys)[k := 0] == Zeroed(m, keys + {k})
  {
  }

  lemma ZeroedTwice<K>(m: map<K, int>, a: set<K>, b: set<K>)
    ensures Zeroed(Zeroed(m, a), b) == Zeroed(m, a + b)
  {
  }

  lemma MarkedOneMore<K>(m: map<K, int>, keys: set<K>, k: K)
    ensures Marked(m, keys)[k := 1] == Marked(m, keys + {k})
  {
  }

  /** The entries of `m` whose key is in `keys` */
  function Restricted<K>(m: map<K, int>, keys: set<K>): (r: map<K, int>)
    ensures r.Keys == m.Keys * keys
    ensures forall k :: k in r ==> r[k] == m[k]
  {
    map k | k in m.Keys * keys :: m[k]
  }

  /** One more `Set(count)` of a Go loop ranging over a count map */
  lemma SetOneMore<K>(m: map<K, int>, counts: map<K, int>, done: set<K>, k: K)
    requires k in counts
    ensures (m + Restricted(counts, done))[k := counts[k]] == m + Restricted(counts, done + {k})
  {
  }

  /** The distinct entries of a label sequence */
  function LabelSet(labels: seq<string>): set<string>
  {
    set x | x in labels
  }

  lemma LabelSetSnoc(labels: seq<string>, x: string)
    ensures LabelSet(labels + [x]) == LabelSet(labels) + {x}
  {
  }

  /** How often `l` occurs in `labels` */
  function Tally(labels: seq<string>, l: string): (r: nat)
    ensures r <= |labels|
    ensures r == 0 <==> l !in labels
  {
    if labels == [] then 0
    else
      var init := labels[..|labels| - 1];
      assert labels == init + [labels[|labels| - 1]];
      Tally(init, l) + (if labels[|labels| - 1] == l then 1 else 0)
  }

  lemma TallySnoc(labels: seq<string>, x: string, l: string)
    ensures Tally(labels + [x], l) == Tally(labels, l) + (if x == l then 1 else 0)
  {
    assert (labels + [x])[..|labels|] == labels;
  }

  /** Two labels that cover every entry of `labels` account for all of them */
  lemma {:induction false} TallyTwoLabels(labels: seq<string>, a: string, b: string)
    requires a != b
    requires forall i :: 0 <= i < |labels| ==> labels[i] == a || labels[i] == b
    ensures Tally(labels, a) + Tally(labels, b) == |labels|
  {
    if labels != [] {
      var init := labels[..|labels| - 1];
      assert labels == init + [labels[|labels| - 1]];
      TallyTwoLabels(init, a, b);
      TallySnoc(init, labels[|labels| - 1], a);
      TallySnoc(init, labels[|labels| - 1], b);
    }
  }

  /** The count of every label that occurs: the local `statusCounts` map of the Go
      exporter once its loop is done */
  function Tallies(labels: seq<string>): (r: map<string, int>)
    ensures forall l :: l in r <==> l in labels
    ensures forall l :: l in r ==> r[l] == Tally(labels, l) && r[l] > 0
  {
    map l | l in labels :: Tally(labels, l)
  }

  /** One `statusCounts[l]++` more */
  lemma TalliesSnoc(labels: seq<string>, x: string)
    ensures Tallies(labels + [x]) == Tallies(labels)[x := Current(Tallies(labels), x) + 1]
  {
    var before, after := Tallies(labels), Tallies(labels + [x]);
    forall l | l in after ensures after[l] == before[x := Current(before, x) + 1][l] {
      TallySnoc(labels, x, l);
    }
  }

  /** `inc(1)` once per entry of `labels`, on the series of that label */
  function Incremented(m: map<string, int>, labels: seq<string>): map<string, int>
  {
    map l | l in m.Keys + (set x | x in labels) :: Current(m, l) + Tally(labels, l)
  }

  /** One `inc(1)` more */
  lemma IncrementedSnoc(m: map<string, int>, labels: seq<string>, x: string)
    ensures Incremented(m, labels + [x]) == Incremented(m, labels)[x := Current(Incremented(m, labels), x) + 1]
  {
    var before, after := Incremented(m, labels), Incremented(m, labels + [x]);
    forall l | l in after ensures after[l] == before[x := Current(before, x) + 1][l] {
      TallySnoc(labels, x, l);
    }
  }

  /** One more label incremented, as the per-backup and per-agent loops take them in */
  lemma IncrementedStep(m: map<string, int>, labels: seq<string>, i: nat)
    requires i < |labels|
    ensures Incremented(m, labels[..i + 1])
         == Incremented(m, labels[..i])[labels[i] := Current(Incremented(m, labels[..i]), labels[i]) + 1]
  {
    TakeOneMore(labels, i);
    IncrementedSnoc(m, labels[..i], labels[i]);
  }

  /** Incrementing from pre-zeroed series (the JavaScript exporters) leaves the same
      gauge as setting each status to its count (the Go exporter), provided that every
      label met either was pre-zeroed or had no series yet. */
  lemma IncrementAfterZeroIsSet(m: map<string, int>, known: set<string>, labels: seq<string>)
    requires forall l :: l in labels ==> l in known || l !in m
    ensures Incremented(Zeroed(m, known), labels) == Zeroed(m, known) + Tallies(labels)
  {
    var z := Zeroed(m, known);
    var inc, set_ := Incremented(z, labels), z + Tallies(labels);
    forall l | l in inc ensures l in set_ && inc[l] == set_[l] {
      if l in labels {
        assert Current(z, l) == 0;
      } else {
        assert Tally(labels, l) == 0;
      }
    }
    assert inc.Keys == set_.Keys;
  }

  // ------------------------------------------------------------------------------------
  // The backup series

  /** The `pbm_snapshots` label tuples the pre-zero pass writes: every fetched name with
      every status known before the poll */
  function DetailKeys(backups: seq<Backup>, known: set<string>): set<DetailKey>
  {
    set b, s | b in backups && s in known :: (b.name, s)
  }

  /** The `pbm_snapshots` label tuples of the fetched backups */
  function BackupKeys(backups: seq<Backup>): set<DetailKey>
  {
    set b | b in backups :: (b.name, b.status)
  }

  lemma BackupsSnoc(backups: seq<Backup>, b: Backup, known: set<string>, s: string)
    ensures Statuses(backups + [b]) == Statuses(backups) + {b.status}
    ensures BackupKeys(backups + [b]) == BackupKeys(backups) + {(b.name, b.status)}
    ensures DetailKeys(backups + [b], {s}) == DetailKeys(backups, {s}) + {(b.name, s)}
  {
  }

  /** One more known status through the pre-zero pass */
  lemma ZeroStatusStep(t: map<string, int>, l: map<string, int>, d: map<DetailKey, int>,
                       backups: seq<Backup>, done: set<string>, s: string)
    ensures Zeroed(t, done)[s := 0] == Zeroed(t, done + {s})
    ensures Zeroed(l, done)[s := 0] == Zeroed(l, done + {s})
    ensures Zeroed(Zeroed(d, DetailKeys(backups, done)), DetailKeys(backups, {s}))
         == Zeroed(d, DetailKeys(backups, done + {s}))
  {
    ZeroedOneMore(t, done, s);
    ZeroedOneMore(l, done, s);
    ZeroedTwice(d, DetailKeys(backups, done), DetailKeys(backups, {s}));
    DetailKeysUnion(backups, done, s);
  }

  /** One more label counted, as the per-backup and per-agent loops take them in */
  lemma TalliesStep(labels: seq<string>, i: nat)
    requires i < |labels|
    ensures Tallies(labels[..i + 1]) == Tallies(labels[..i])[labels[i] := Current(Tallies(labels[..i]), labels[i]) + 1]
  {
    TakeOneMore(labels, i);
    TalliesSnoc(labels[..i], labels[i]);
  }

  /** The local count map once a Go loop has counted the first `i` labels */
  function Counted(labels: seq<string>, i: nat): map<string, int>
    requires i <= |labels|
  {
    if i == 0 then map[]
    else
      var before := Counted(labels, i - 1);
      before[labels[i - 1] := Current(before, labels[i - 1]) + 1]
  }

  /** Counting label by label ends with the tally of every label */
  lemma {:induction false} CountedAll(labels: seq<string>, i: nat)
    requires i <= |labels|
    ensures Counted(labels, i) == Tallies(labels[..i])
  {
    if i == 0 {
      assert labels[..0] == [];
      assert Tallies([]) == map[];
    } else {
      CountedAll(labels, i - 1);
      TalliesStep(labels, i - 1);
    }
  }

  /** One more agent counted under its derived status */
  lemma CountedAgentStep(agents: seq<Agent>, i: nat)
    requires i < |agents|
    ensures var before := Counted(NodeLabels(agents), i);
      Counted(NodeLabels(agents), i + 1) == before[NodeStatus(agents[i]) := Current(before, NodeStatus(agents[i])) + 1]
  {
  }

  /** The statuses known once the loop has remembered the first `i` backups' statuses */
  function Remembered(known: set<string>, backups: seq<Backup>, i: nat): set<string>
    requires i <= |backups|
  {
    if i == 0 then known else Remembered(known, backups, i - 1) + {backups[i - 1].status}
  }

  /** Remembering every backup adds exactly the backups' statuses */
  lemma {:induction false} RememberedAll(known: set<string>, backups: seq<Backup>, i: nat)
    requires i <= |backups|
    ensures Remembered(known, backups, i) == known + Statuses(backups[..i])
  {
    if i == 0 {
      assert backups[..0] == [];
    } else {
      RememberedAll(known, backups, i - 1);
      TakeOneMore(backups, i - 1);
      BackupsSnoc(backups[..i - 1], backups[i - 1], {}, backups[i - 1].status);
    }
  }

  lemma DetailKeysUnion(backups: seq<Backup>, done: set<string>, s: string)
    ensures DetailKeys(backups, done) + DetailKeys(backups, {s}) == DetailKeys(backups, done + {s})
  {
  }

  /** `pbm_snapshots_total` after a poll */
  function TotalsAfter(totals: map<string, int>, known: set<string>, backups: seq<Backup>): map<string, int>
  {
    Zeroed(totals, known) + Tallies(StatusLabels(backups))
  }

  /** `pbm_snapshots` after a poll */
  function DetailAfter(detail: map<DetailKey, int>, known: set<string>, backups: seq<Backup>): map<DetailKey, int>
  {
    Marked(Zeroed(detail, DetailKeys(backups, known)), BackupKeys(backups))
  }

  /** `pbm_last_snapshot` after a poll */
  function LastAfter(last: map<string, int>, known: set<string>, backups: seq<Backup>): (r: map<string, int>)
    ensures r.Keys == last.Keys + known + (if backups == [] then {} else {backups[0].status})
  {
    ZeroedAt(last, known);
    if backups == [] then Zeroed(last, known)
    else Zeroed(last, known)[backups[0].status := 1]
  }

  /** Every status ever seen has a `pbm_snapshots_total` series, which reads the number of
      fetched backups with that status; a status no fetched backup has any more reads 0. */
  lemma TotalsExact(totals: map<string, int>, known: set<string>, backups: seq<Backup>)
    requires totals.Keys == known
    ensures TotalsAfter(totals, known, backups).Keys == known + Statuses(backups)
    ensures forall s :: s in known + Statuses(backups) ==>
      TotalsAfter(totals, known, backups)[s] == Tally(StatusLabels(backups), s)
    ensures forall s :: s in known && s !in Statuses(backups) ==>
      TotalsAfter(totals, known, backups)[s] == 0
  {
    StatusesAreLabels(backups);
  }

  /** The positions among the first `n` of `labels` that hold `l` */
  function Positions(labels: seq<string>, l: string, n: nat): set<int>
    requires n <= |labels|
  {
    set i | 0 <= i < n && labels[i] == l
  }

  lemma PositionsStep(labels: seq<string>, l: string, n: nat)
    requires n < |labels|
    ensures Positions(labels, l, n + 1) == Positions(labels, l, n) + (if labels[n] == l then {n} else {})
    ensures n !in Positions(labels, l, n)
  {
  }

  /** How often a label occurs among the first `n` labels is the number of positions
      there that hold it */
  lemma {:induction false} TallyIsPositions(labels: seq<string>, l: string, n: nat)
    requires n <= |labels|
    ensures Tally(labels[..n], l) == |Positions(labels, l, n)|
  {
    if n == 0 {
      assert labels[..0] == [];
      assert Positions(labels, l, 0) == {};
    } else {
      TallyIsPositions(labels, l, n - 1);
      TakeOneMore(labels, n - 1);
      TallySnoc(labels[..n - 1], labels[n - 1], l);
      PositionsStep(labels, l, n - 1);
      var before, after := Positions(labels, l, n - 1), Positions(labels, l, n);
      if labels[n - 1] == l {
        assert after == before + {n - 1};
        assert |after| == |before| + 1;
      } else {
        assert after == before;
      }
    }
  }

  /** How often a label occurs is the number of positions that hold it */
  lemma TallyIsOccurrences(labels: seq<string>, l: string)
    ensures Tally(labels, l) == |set i | 0 <= i < |labels| && labels[i] == l|
  {
    TallyIsPositions(labels, l, |labels|);
    assert labels[..|labels|] == labels;
  }

  /** The number a `pbm_snapshots_total` series reads is the number of fetched backups
      with that status */
  lemma TallyCountsBackups(backups: seq<Backup>, s: string)
    ensures Tally(StatusLabels(backups), s) == |set i | 0 <= i < |backups| && backups[i].status == s|
  {
    var labels := StatusLabels(backups);
    TallyIsOccurrences(labels, s);
    assert (set i | 0 <= i < |labels| && labels[i] == s) == (set i | 0 <= i < |backups| && backups[i].status == s);
  }

  /** For every fetched name and every status known after the poll, the detail series
      that exists reads 1 exactly when a fetched backup of that name has that status;
      every fetched backup's own series reads 1; series of names not fetched keep their
      value. */
  lemma DetailExact(detail: map<DetailKey, int>, known: set<string>, backups: seq<Backup>)
    requires forall k :: k in detail ==> k.1 in known
    ensures var r := DetailAfter(detail, known, backups);
      && (forall b :: b in backups ==> (b.name, b.status) in r && r[(b.name, b.status)] == 1)
      && (forall b, s :: b in backups && s in known ==> (b.name, s) in r)
      && (forall b, s :: b in backups && (b.name, s) in r ==>
            (r[(b.name, s)] == 1 <==> exists c :: c in backups && c.name == b.name && c.status == s))
      && (forall b, s :: b in backups && (b.name, s) in r ==> r[(b.name, s)] == 0 || r[(b.name, s)] == 1)
      && (forall k :: k in r ==> k.1 in known + Statuses(backups))
      && (forall k :: k in detail && (forall b :: b in backups ==> b.name != k.0) ==>
            k in r && r[k] == detail[k])
  {
    DetailMarksBackups(detail, known, backups);
    DetailFlags(detail, known, backups);
    DetailKeysKnown(detail, known, backups);
    DetailKeepsOthers(detail, known, backups);
  }

  lemma DetailMarksBackups(detail: map<DetailKey, int>, known: set<string>, backups: seq<Backup>)
    ensures var r := DetailAfter(detail, known, backups);
      && (forall b :: b in backups ==> (b.name, b.status) in r && r[(b.name, b.status)] == 1)
      && (forall b, s :: b in backups && s in known ==> (b.name, s) in r)
  {
  }

  lemma DetailFlags(detail: map<DetailKey, int>, known: set<string>, backups: seq<Backup>)
    requires forall k :: k in detail ==> k.1 in known
    ensures var r := DetailAfter(detail, known, backups);
      && (forall b, s :: b in backups && (b.name, s) in r ==>
            (r[(b.name, s)] == 1 <==> exists c :: c in backups && c.name == b.name && c.status == s))
      && (forall b, s :: b in backups && (b.name, s) in r ==> r[(b.name, s)] == 0 || r[(b.name, s)] == 1)
  {
    var r := DetailAfter(detail, known, backups);
    forall b, s | b in backups && (b.name, s) in r
      ensures r[(b.name, s)] == 1 <==> exists c :: c in backups && c.name == b.name && c.status == s
      ensures r[(b.name, s)] == 0 || r[(b.name, s)] == 1
    {
      if (b.name, s) !in BackupKeys(backups) {
        assert s in known;
        assert (b.name, s) in DetailKeys(backups, known);
      }
    }
  }

  lemma DetailKeysKnown(detail: map<DetailKey, int>, known: set<string>, backups: seq<Backup>)
    requires forall k :: k in detail ==> k.1 in known
    ensures forall k :: k in DetailAfter(detail, known, backups) ==> k.1 in known + Statuses(backups)
  {
  }

  lemma DetailKeepsOthers(detail: map<DetailKey, int>, known: set<string>, backups: seq<Backup>)
    ensures var r := DetailAfter(detail, known, backups);
      forall k :: k in detail && (forall b :: b in backups ==> b.name != k.0) ==> k in r && r[k] == detail[k]
  {
  }

  /** With at least one backup the "last" series are one-hot: the newest backup's status
      reads 1 and every other series 0. Without backups every series reads 0. */
  lemma LastOneHot(last: map<string, int>, known: set<string>, backups: seq<Backup>)
    requires last.Keys <= known
    ensures var r := LastAfter(last, known, backups);
      && (backups != [] ==> backups[0].status in r)
      && known <= r.Keys
      && (forall s :: s in r ==> r[s] == if backups != [] && s == backups[0].status then 1 else 0)
      && r.Keys <= known + Statuses(backups)
  {
    if backups != [] {
      assert backups[0] in backups;
    }
  }

  /** After a poll the status-labelled series still belong to statuses seen so far */
  lemma AfterKeys(totals: map<string, int>, detail: map<DetailKey, int>, last: map<string, int>,
                  known: set<string>, backups: seq<Backup>)
    requires totals.Keys == known && last.Keys <= known
    requires forall k :: k in detail ==> k.1 in known
    ensures TotalsAfter(totals, known, backups).Keys == known + Statuses(backups)
    ensures LastAfter(last, known, backups).Keys <= known + Statuses(backups)
    ensures forall k :: k in DetailAfter(detail, known, backups) ==> k.1 in known + Statuses(backups)
  {
    TotalsExact(totals, known, backups);
    LastOneHot(last, known, backups);
    DetailExact(detail, known, backups);
  }

  /** Once every fetched status is known, a second poll of the same backups leaves the
      totals as the first left them */
  lemma TotalsSettle(totals: map<string, int>, known: set<string>, backups: seq<Backup>)
    requires Statuses(backups) <= known
    ensures TotalsAfter(TotalsAfter(totals, known, backups), known, backups) == TotalsAfter(totals, known, backups)
  {
    StatusesAreLabels(backups);
    SetAfterZeroSettles(totals, known, Tallies(StatusLabels(backups)));
  }

  /** For a fixed set of known statuses, a second poll of the same backups leaves the
      detail series as the first left them */
  lemma DetailSettles(detail: map<DetailKey, int>, known: set<string>, backups: seq<Backup>)
    ensures DetailAfter(DetailAfter(detail, known, backups), known, backups) == DetailAfter(detail, known, backups)
  {
  }

  /** For a fixed set of known statuses, a second poll of the same backups leaves the
      "last" series as the first left them */
  lemma LastSettles(last: map<string, int>, known: set<string>, backups: seq<Backup>)
    ensures LastAfter(LastAfter(last, known, backups), known, backups) == LastAfter(last, known, backups)
  {
  }

  // ------------------------------------------------------------------------------------
  // The node series

  /** The `pbm_nodes` label tuples the pre-zero pass writes: every fetched agent with
      both node statuses */
  function NodeKeys(agents: seq<Agent>, statuses: set<string>): set<NodeKey>
  {
    set a, st | a in agents && st in statuses :: (a.rs, Host(a), st)
  }

  /** The `pbm_nodes` label tuples of the fetched agents with their derived status */
  function AgentKeys(agents: seq<Agent>): set<NodeKey>
  {
    set a | a in agents :: (a.rs, Host(a), NodeStatus(a))
  }

  lemma AgentsSnoc(agents: seq<Agent>, a: Agent, st: string)
    ensures AgentKeys(agents + [a]) == AgentKeys(agents) + {(a.rs, Host(a), NodeStatus(a))}
    ensures NodeKeys(agents + [a], {st}) == NodeKeys(agents, {st}) + {(a.rs, Host(a), st)}
  {
  }

  lemma NodeKeysUnion(agents: seq<Agent>, done: set<string>, st: string)
    ensures NodeKeys(agents, done) + NodeKeys(agents, {st}) == NodeKeys(agents, done + {st})
  {
  }

  /** One more node status through the pre-zero pass */
  lemma ZeroNodeStatusStep(t: map<string, int>, n: map<NodeKey, int>, agents: seq<Agent>,
                           statuses: seq<string>, k: nat)
    requires k < |statuses|
    ensures Zeroed(t, LabelSet(statuses[..k]))[statuses[k] := 0] == Zeroed(t, LabelSet(statuses[..k + 1]))
    ensures Zeroed(Zeroed(n, NodeKeys(agents, LabelSet(statuses[..k]))), NodeKeys(agents, {statuses[k]}))
         == Zeroed(n, NodeKeys(agents, LabelSet(statuses[..k + 1])))
  {
    var done, st := LabelSet(statuses[..k]), statuses[k];
    TakeOneMore(statuses, k);
    LabelSetSnoc(statuses[..k], st);
    ZeroedOneMore(t, done, st);
    ZeroedTwice(n, NodeKeys(agents, done), NodeKeys(agents, {st}));
    NodeKeysUnion(agents, done, st);
  }

  /** `pbm_nodes_total` after a poll */
  function NodeTotalsAfter(totals: map<string, int>, agents: seq<Agent>): map<string, int>
  {
    Zeroed(totals, {OkStatus, ErrorStatus}) + Tallies(NodeLabels(agents))
  }

  /** `pbm_nodes` after a poll */
  function NodesAfter(nodes: map<NodeKey, int>, agents: seq<Agent>): map<NodeKey, int>
  {
    Marked(Zeroed(nodes, NodeKeys(agents, {OkStatus, ErrorStatus})), AgentKeys(agents))
  }

  /** Both node totals exist; they count the healthy and the unhealthy agents, and
      together the number of agents */
  lemma NodeTotalsExact(totals: map<string, int>, agents: seq<Agent>)
    ensures var r := NodeTotalsAfter(totals, agents);
      && OkStatus in r && ErrorStatus in r
      && r[OkStatus] == Tally(NodeLabels(agents), OkStatus)
      && r[ErrorStatus] == Tally(NodeLabels(agents), ErrorStatus)
      && r[OkStatus] + r[ErrorStatus] == |agents|
      && (forall st :: st in r && st != OkStatus && st != ErrorStatus ==> r[st] == totals[st])
  {
    TallyTwoLabels(NodeLabels(agents), OkStatus, ErrorStatus);
  }

  /** Every fetched agent's series for its derived status reads 1; its series for the
      other status reads 0 unless another agent with the same labels has that status;
      series of nodes not fetched keep their value. */
  lemma NodesExact(nodes: map<NodeKey, int>, agents: seq<Agent>)
    ensures forall a :: a in agents ==>
      (a.rs, Host(a), NodeStatus(a)) in NodesAfter(nodes, agents) &&
      NodesAfter(nodes, agents)[(a.rs, Host(a), NodeStatus(a))] == 1
    ensures forall a, st :: a in agents && (st == OkStatus || st == ErrorStatus) ==>
      (a.rs, Host(a), st) in NodesAfter(nodes, agents) &&
      (NodesAfter(nodes, agents)[(a.rs, Host(a), st)] == 1 <==>
         exists c :: c in agents && c.rs == a.rs && Host(c) == Host(a) && NodeStatus(c) == st) &&
      (NodesAfter(nodes, agents)[(a.rs, Host(a), st)] == 0 || NodesAfter(nodes, agents)[(a.rs, Host(a), st)] == 1)
    ensures forall k :: k in nodes && (forall a :: a in agents ==> (a.rs, Host(a)) != (k.0, k.1)) ==>
      k in NodesAfter(nodes, agents) && NodesAfter(nodes, agents)[k] == nodes[k]
  {
    NodesMarkAgents(nodes, agents);
    NodesKeepOthers(nodes, agents);
  }

  lemma NodesMarkAgents(nodes: map<NodeKey, int>, agents: seq<Agent>)
    ensures forall a :: a in agents ==>
      (a.rs, Host(a), NodeStatus(a)) in NodesAfter(nodes, agents) &&
      NodesAfter(nodes, agents)[(a.rs, Host(a), NodeStatus(a))] == 1
    ensures forall a, st :: a in agents && (st == OkStatus || st == ErrorStatus) ==>
      (a.rs, Host(a), st) in NodesAfter(nodes, agents) &&
      (NodesAfter(nodes, agents)[(a.rs, Host(a), st)] == 1 <==>
         exists c :: c in agents && c.rs == a.rs && Host(c) == Host(a) && NodeStatus(c) == st) &&
      (NodesAfter(nodes, agents)[(a.rs, Host(a), st)] == 0 || NodesAfter(nodes, agents)[(a.rs, Host(a), st)] == 1)
  {
    forall a, st | a in agents && (st == OkStatus || st == ErrorStatus)
      ensures (a.rs, Host(a), st) in NodesAfter(nodes, agents)
      ensures NodesAfter(nodes, agents)[(a.rs, Host(a), st)] == 1 <==>
        exists c :: c in agents && c.rs == a.rs && Host(c) == Host(a) && NodeStatus(c) == st
      ensures NodesAfter(nodes, agents)[(a.rs, Host(a), st)] == 0 || NodesAfter(nodes, agents)[(a.rs, Host(a), st)] == 1
    {
      NodeSeriesOf(nodes, agents, a, st);
    }
  }

  /** One fetched agent's series for one of the two statuses */
  lemma NodeSeriesOf(nodes: map<NodeKey, int>, agents: seq<Agent>, a: Agent, st: string)
    requires a in agents && (st == OkStatus || st == ErrorStatus)
    ensures var r, k := NodesAfter(nodes, agents), (a.rs, Host(a), st);
      && k in r
      && (r[k] == 1 <==> exists c :: c in agents && c.rs == a.rs && Host(c) == Host(a) && NodeStatus(c) == st)
      && (r[k] == 0 || r[k] == 1)
  {
    var zeroKeys := NodeKeys(agents, {OkStatus, ErrorStatus});
    var r, k := NodesAfter(nodes, agents), (a.rs, Host(a), st);
    ZeroedAt(nodes, zeroKeys);
    assert k in zeroKeys;
    if k in AgentKeys(agents) {
      var c :| c in agents && (c.rs, Host(c), NodeStatus(c)) == k;
      assert r[k] == 1;
    } else {
      assert r[k] == 0;
    }
  }

  lemma NodesKeepOthers(nodes: map<NodeKey, int>, agents: seq<Agent>)
    ensures forall k :: k in nodes && (forall a :: a in agents ==> (a.rs, Host(a)) != (k.0, k.1)) ==>
      k in NodesAfter(nodes, agents) && NodesAfter(nodes, agents)[k] == nodes[k]
  {
    var zeroKeys := NodeKeys(agents, {OkStatus, ErrorStatus});
    ZeroedAt(nodes, zeroKeys);
    forall k | k in nodes && (forall a :: a in agents ==> (a.rs, Host(a)) != (k.0, k.1))
      ensures k in NodesAfter(nodes, agents) && NodesAfter(nodes, agents)[k] == nodes[k]
    {
      assert k !in zeroKeys;
      assert k !in AgentKeys(agents);
    }
  }

  /** The number a `pbm_nodes_total` series reads is the number of fetched agents with
      that derived status */
  lemma TallyCountsAgents(agents: seq<Agent>, st: string)
    ensures Tally(NodeLabels(agents), st) == |set i | 0 <= i < |agents| && NodeStatus(agents[i]) == st|
  {
    var labels := NodeLabels(agents);
    TallyIsOccurrences(labels, st);
    assert (set i | 0 <= i < |labels| && labels[i] == st) == (set i | 0 <= i < |agents| && NodeStatus(agents[i]) == st);
  }

  /** A second poll of the same agents leaves both node gauges as the first left them */
  lemma NodesSettle(totals: map<string, int>, nodes: map<NodeKey, int>, agents: seq<Agent>)
    ensures NodeTotalsAfter(NodeTotalsAfter(totals, agents), agents) == NodeTotalsAfter(totals, agents)
    ensures NodesAfter(NodesAfter(nodes, agents), agents) == NodesAfter(nodes, agents)
  {
    var labels := NodeLabels(agents);
    forall l | l in Tallies(labels) ensures l in {OkStatus, ErrorStatus} {
      var i :| 0 <= i < |labels| && labels[i] == l;
    }
    SetAfterZeroSettles(totals, {OkStatus, ErrorStatus}, Tallies(labels));
    MarkAfterZeroSettles(nodes, NodeKeys(agents, {OkStatus, ErrorStatus}), AgentKeys(agents));
  }

  /** Zeroing a key set and then setting counts only on those keys is idempotent */
  lemma SetAfterZeroSettles<K>(m: map<K, int>, keys: set<K>, counts: map<K, int>)
    requires counts.Keys <= keys
    ensures Zeroed(Zeroed(m, keys) + counts, keys) + counts == Zeroed(m, keys) + counts
  {
  }

  /** Zeroing one key set and then marking another is idempotent */
  lemma MarkAfterZeroSettles<K>(m: map<K, int>, zero: set<K>, mark: set<K>)
    ensures Marked(Zeroed(Marked(Zeroed(m, zero), mark), zero), mark) == Marked(Zeroed(m, zero), mark)
  {
  }
}
