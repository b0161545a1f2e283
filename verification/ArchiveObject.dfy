/** The archive directory: two files a revision, listed by their sidecars, pruned to the
    newest ones. */
module ArchiveObject {
  import opened Wrappers
  import opened Config
  import D = Daemon
  import I = DaemonInvariant
  import Curly

  /** What both file names of a revision start with. */
  datatype Stem = Stem(revision: nat, stamp: string)
  datatype Info = Info(revision: nat, stamp: string, uid: nat, comment: Option<string>)

  datatype ReadError = NoSuchRevision | Damaged(error: Curly.ParseError)

  function StemOf(info: Info): Stem {
    Stem(info.revision, info.stamp)
  }

  ghost predicate NewestFirst(listed: seq<Info>) {
    forall i, j :: 0 <= i < j < |listed| ==> listed[i].revision >= listed[j].revision
  }

  ghost predicate NoneTwice(listed: seq<Info>) {
    forall i, j :: 0 <= i < j < |listed| ==> listed[i] != listed[j]
  }

  /** What the text of an archived file holds. */
  function Unpacked(text: string): (r: Result<Node, ReadError>)
    ensures r != Err(NoSuchRevision)
  {
    match Curly.Parse(text)
    case Ok(config) => Ok(config)
    case Err(e) => Err(Damaged(e))
  }

  function Least(a: nat, b: nat): nat {
    if a < b then a else b
  }

  class Archive {
    /** The compressed configurations, and the sidecars that make them visible. */
    var configs: map<Stem, string>
    var metas: map<Stem, Info>

    ghost predicate Valid()
      reads this
    {
      (forall s :: s in metas ==> StemOf(metas[s]) == s) && metas.Keys <= configs.Keys
    }

    constructor ()
      ensures Valid() && metas == map[] && configs == map[]
    {
      configs, metas := map[], map[];
    }

    /** Put one entry where it belongs, after those of the same revision. */
    static method InsertInfo(listed: seq<Info>, info: Info) returns (r: seq<Info>)
      requires NewestFirst(listed)
      ensures NewestFirst(r) && multiset(r) == multiset(listed) + multiset{info}
    {
      var i := 0;
      while i < |listed| && listed[i].revision >= info.revision
        invariant 0 <= i <= |listed|
        invariant forall k :: 0 <= k < i ==> listed[k].revision >= info.revision
      {
        i := i + 1;
      }
      InsertedInOrder(listed, info, i);
      r := listed[..i] + [info] + listed[i..];
    }

    /** Every revision there is a sidecar for, newest first. */
    method List() returns (listed: seq<Info>)
      requires Valid()
      ensures NewestFirst(listed) && NoneTwice(listed) && |listed| == |metas|
      ensures forall info :: info in listed <==> StemOf(info) in metas && metas[StemOf(info)] == info
    {
      listed := [];
      var entries := metas.Keys;
      ghost var seen: multiset<Info> := multiset{};
      while entries != {}
        invariant entries <= metas.Keys && NewestFirst(listed)
        invariant |listed| + |entries| == |metas.Keys|
        invariant forall info :: multiset(listed)[info] == if StemOf(info) in metas.Keys - entries && metas[StemOf(info)] == info then 1 else 0
        decreases |entries|
      {
        var s :| s in entries;
        ghost var before := listed;
        listed := InsertInfo(listed, metas[s]);
        assert multiset(listed) == multiset(before) + multiset{metas[s]};
        assert |multiset(listed)| == |listed| && |multiset(before)| == |before|;
        entries := entries - {s};
      }
      forall info ensures info in listed <==> StemOf(info) in metas && metas[StemOf(info)] == info {
        assert info in listed <==> info in multiset(listed);
      }
      OnceEach(listed);
    }

    /** Both files of every entry past the newest `KEEP`. */
    method RemovePast(listed: seq<Info>) returns (pruned: nat)
      modifies this
      ensures metas == old(metas) - Stems(Surplus(listed)) && configs == old(configs) - Stems(Surplus(listed))
      ensures pruned == |Surplus(listed)|
    {
      hide Stems, Surplus, Middle;
      NoMiddle(listed);
      NoStems();
      pruned := 0;
      var i := D.KEEP;
      while i < |listed|
        invariant D.KEEP <= i && (i <= |listed| || i == D.KEEP) && pruned == i - D.KEEP
        invariant metas == old(metas) - Stems(Middle(listed, i))
        invariant configs == old(configs) - Stems(Middle(listed, i))
        modifies this
      {
        StemsMore(listed, i);
        MinusMore(old(configs), Stems(Middle(listed, i)), StemOf(listed[i]));
        MinusMore(old(metas), Stems(Middle(listed, i)), StemOf(listed[i]));
        configs := configs - {StemOf(listed[i])};
        metas := metas - {StemOf(listed[i])};
        pruned := pruned + 1;
        i := i + 1;
      }
      AllOfIt(listed, i);
    }

    /** Remove everything older than the newest `KEEP`, both files of each. */
    method PruneOld() returns (pruned: nat)
      requires Valid()
      modifies this
      ensures Valid() && Pruned(old(metas), metas) && pruned == |old(metas)| - |metas|
      ensures configs == old(configs) - (old(metas).Keys - metas.Keys)
    {
      var listed := List();
      StemsDiffer(listed, metas);
      GoneAreOldest(listed, metas);
      CountLess(metas, Stems(Surplus(listed)));
      hide NewestFirst, NoneTwice, Pruned, Stems, DifferentStems, Surplus;
      pruned := RemovePast(listed);
    }

    /** The configuration first, then the sidecar that makes it visible, then prune. */
    method Write(info: Info, text: string)
      requires Valid()
      modifies this
      ensures Valid()
      ensures var all := old(metas)[StemOf(info) := info];
              Pruned(all, metas) && configs == old(configs)[StemOf(info) := text] - (all.Keys - metas.Keys)
    {
      configs := configs[StemOf(info) := text];
      metas := metas[StemOf(info) := info];
      var _ := PruneOld();
    }

    /** The configuration a revision holds: an error exactly when no sidecar has the
        number, its file is missing, or its text does not parse. */
    method Read(revision: nat) returns (r: Result<Node, ReadError>)
      requires Valid()
      ensures r == Err(NoSuchRevision) <==> forall s :: s in metas ==> s.revision != revision
      ensures r != Err(NoSuchRevision) ==> exists s :: s in metas && s.revision == revision && r == Unpacked(configs[s])
    {
      hide Unpacked;
      var listed := List();
      var i := 0;
      while i < |listed| && listed[i].revision != revision
        invariant 0 <= i <= |listed|
        invariant forall k :: 0 <= k < i ==> listed[k].revision != revision
      {
        i := i + 1;
      }
      if i == |listed| {
        forall s | s in metas ensures s.revision != revision { assert metas[s] in listed; }
        return Err(NoSuchRevision);
      }
      assert listed[i] in listed;
      var stem := StemOf(listed[i]);
      r := Unpacked(configs[stem]);
    }
  }

  lemma InsertedInOrder(listed: seq<Info>, info: Info, i: nat)
    requires NewestFirst(listed) && i <= |listed| && (forall k :: 0 <= k < i ==> listed[k].revision >= info.revision)
    requires i < |listed| ==> listed[i].revision < info.revision
    ensures NewestFirst(listed[..i] + [info] + listed[i..])
    ensures multiset(listed[..i] + [info] + listed[i..]) == multiset(listed) + multiset{info}
  {
    Cut(listed, info, i);
    assert listed == listed[..i] + listed[i..];
    hide NewestFirst;
    InOrder(listed[..i], info, listed[i..]);
  }

  lemma Cut(listed: seq<Info>, info: Info, i: nat)
    requires NewestFirst(listed) && i <= |listed| && (forall k :: 0 <= k < i ==> listed[k].revision >= info.revision)
    requires i < |listed| ==> listed[i].revision < info.revision
    ensures NewestFirst(listed[..i]) && NewestFirst(listed[i..])
    ensures forall k :: 0 <= k < |listed[..i]| ==> listed[..i][k].revision >= info.revision
    ensures forall k :: 0 <= k < |listed[i..]| ==> listed[i..][k].revision <= info.revision
  {
  }

  lemma InOrder(front: seq<Info>, info: Info, back: seq<Info>)
    requires NewestFirst(front) && NewestFirst(back)
    requires forall k :: 0 <= k < |front| ==> front[k].revision >= info.revision
    requires forall k :: 0 <= k < |back| ==> back[k].revision <= info.revision
    ensures NewestFirst(front + [info] + back)
  {
  }

  /** `kept` is the newest `KEEP` of the sidecars there were. */
  ghost predicate Pruned(all: map<Stem, Info>, kept: map<Stem, Info>) {
    && kept.Keys <= all.Keys && (forall s :: s in kept ==> kept[s] == all[s])
    && |kept| == Least(|all|, D.KEEP)
    && forall s, t :: s in all && s !in kept && t in kept ==> s.revision <= t.revision
  }

  lemma TwiceCounts<T>(s: seq<T>, i: nat, j: nat)
    requires i < j < |s| && s[i] == s[j]
    ensures multiset(s)[s[i]] >= 2
  {
    assert s == s[..i] + [s[i]] + s[i + 1..j] + [s[j]] + s[j + 1..];
  }

  lemma OnceEach(listed: seq<Info>)
    requires forall info :: multiset(listed)[info] <= 1
    ensures NoneTwice(listed)
  {
    if i, j :| 0 <= i < j < |listed| && listed[i] == listed[j] {
      TwiceCounts(listed, i, j);
      assert false;
    }
  }

  function Stems(infos: seq<Info>): set<Stem> {
    set info | info in infos :: StemOf(info)
  }

  /** The entries past the newest `KEEP`, as far as `i`. */
  function Middle(listed: seq<Info>, i: nat): seq<Info> {
    if D.KEEP <= i <= |listed| then listed[D.KEEP..i] else []
  }

  lemma MinusMore<V>(m: map<Stem, V>, gone: set<Stem>, s: Stem)
    ensures m - gone - {s} == m - (gone + {s})
  {
  }

  lemma NoMiddle(listed: seq<Info>)
    ensures Middle(listed, D.KEEP) == []
  {
  }

  lemma AllOfIt(listed: seq<Info>, i: nat)
    requires D.KEEP <= i && i >= |listed| && (i <= |listed| || i == D.KEEP)
    ensures Middle(listed, i) == Surplus(listed) && i - D.KEEP == |Surplus(listed)|
  {
  }

  lemma NoStems()
    ensures Stems([]) == {}
  {
  }

  lemma StemsMore(listed: seq<Info>, i: nat)
    requires D.KEEP <= i < |listed|
    ensures Stems(Middle(listed, i + 1)) == Stems(Middle(listed, i)) + {StemOf(listed[i])}
  {
    assert Middle(listed, i + 1) == Middle(listed, i) + [listed[i]];
  }

  ghost predicate DifferentStems(listed: seq<Info>) {
    forall k, l :: 0 <= k < l < |listed| ==> StemOf(listed[k]) != StemOf(listed[l])
  }

  lemma StemsDiffer(listed: seq<Info>, metas: map<Stem, Info>)
    requires NoneTwice(listed) && forall info :: info in listed ==> StemOf(info) in metas && metas[StemOf(info)] == info
    ensures DifferentStems(listed)
  {
    forall k, l | 0 <= k < l < |listed| ensures StemOf(listed[k]) != StemOf(listed[l]) {
      assert listed[k] in listed && listed[l] in listed;
    }
  }

  lemma {:induction false} StemCount(infos: seq<Info>)
    requires DifferentStems(infos)
    ensures |Stems(infos)| == |infos|
    decreases |infos|
  {
    if infos != [] {
      var n := |infos| - 1;
      StemCount(infos[..n]);
      assert infos == infos[..n] + [infos[n]];
      assert Stems(infos) == Stems(infos[..n]) + {StemOf(infos[n])};
      assert StemOf(infos[n]) !in Stems(infos[..n]);
    }
  }

  lemma CountLess(all: map<Stem, Info>, gone: set<Stem>)
    requires gone <= all.Keys
    ensures (all - gone).Keys == all.Keys - gone && all.Keys - (all - gone).Keys == gone
    ensures |all - gone| == |all| - |gone|
  {
    assert (all - gone).Keys == all.Keys - gone;
    assert |all.Keys - gone| == |all.Keys| - |gone|;
  }

  /** The entries a prune takes out of a listing. */
  function Surplus(listed: seq<Info>): (dropped: seq<Info>)
    ensures |dropped| == |listed| - Least(|listed|, D.KEEP)
  {
    if |listed| > D.KEEP then listed[D.KEEP..] else []
  }

  lemma SurplusStems(listed: seq<Info>)
    requires DifferentStems(listed)
    ensures |Stems(Surplus(listed))| == |Surplus(listed)|
    ensures forall s :: s in Stems(Surplus(listed)) ==> exists info :: info in listed && StemOf(info) == s
  {
    var dropped := Surplus(listed);
    assert forall k :: 0 <= k < |dropped| ==> dropped[k] == listed[D.KEEP + k];
    StemCount(dropped);
  }

  lemma GoneAreOldest(listed: seq<Info>, all: map<Stem, Info>)
    requires NewestFirst(listed) && DifferentStems(listed) && |listed| == |all|
    requires forall info :: info in listed <==> StemOf(info) in all && all[StemOf(info)] == info
    requires forall s :: s in all ==> StemOf(all[s]) == s
    ensures var gone := Stems(Surplus(listed));
            && gone <= all.Keys && |gone| == |Surplus(listed)| && Pruned(all, all - gone)
  {
    SurplusStems(listed);
    var gone := Stems(Surplus(listed));
    CountLess(all, gone);
    forall s, t | s in all && s !in all - gone && t in all - gone ensures s.revision <= t.revision {
      hide Surplus, Stems, DifferentStems;
      OlderGoes(listed, all, s, t);
    }
  }

  lemma OlderGoes(listed: seq<Info>, all: map<Stem, Info>, s: Stem, t: Stem)
    requires NewestFirst(listed)
    requires s in Stems(Surplus(listed)) && t in all && t !in Stems(Surplus(listed)) && StemOf(all[t]) == t && all[t] in listed
    ensures s.revision <= t.revision
  {
    var dropped := Surplus(listed);
    var k :| 0 <= k < |dropped| && StemOf(dropped[k]) == s;
    var l :| 0 <= l < |listed| && listed[l] == all[t];
    assert dropped[k] == listed[D.KEEP + k];
    assert forall j :: D.KEEP <= j < |listed| ==> dropped[j - D.KEEP] == listed[j] && listed[j] in dropped;
  }

  // ----- the archive the daemon's theorems speak of ----------------------

  /** `kept` is the newest `KEEP` of `all`. */
  ghost predicate KeepsNewest(all: set<D.Revision>, kept: set<D.Revision>) {
    && kept <= all && |kept| == Least(|all|, D.KEEP)
    && forall r, k :: r in all && r !in kept && k in kept ==> r.revision <= k.revision
  }

  /** When no number is used twice there is one way to keep the newest. */
  lemma NewestIsUnique(all: set<D.Revision>, one: set<D.Revision>, two: set<D.Revision>)
    requires KeepsNewest(all, one) && KeepsNewest(all, two)
    requires forall r, s :: r in all && s in all && r.revision == s.revision ==> r == s
    ensures one == two
  {
    if one < two { SmallerSet(one, two); }
    if two < one { SmallerSet(two, one); }
    if x, y :| x in one - two && y in two - one {
      Neither(all, one, two, x, y);
    }
  }

  lemma Neither(all: set<D.Revision>, one: set<D.Revision>, two: set<D.Revision>, x: D.Revision, y: D.Revision)
    requires KeepsNewest(all, one) && KeepsNewest(all, two)
    requires x in one && y in two && x.revision == y.revision ==> x == y
    ensures x in one && x !in two ==> y in one || y !in two
  {
  }

  lemma SmallerSet<T>(a: set<T>, b: set<T>)
    requires a < b
    ensures |a| < |b|
  {
    assert b == a + (b - a);
    var x :| x in b - a;
    assert |b - a| > 0;
  }

  /** So the directory holds what the state machine's archive holds: pruning a history in
      writing order keeps its newest revisions. */
  lemma PruneKeeps(all: seq<D.Revision>)
    requires I.Increasing(all)
    ensures KeepsNewest(set r | r in all, set r | r in D.Prune(all))
  {
    I.PruneKeepsNewest(all);
    KeptIncreasing(all);
    Members(all);
    Members(I.LastKept(all));
    hide D.Prune, I.LastKept;
    SuffixIsNewest(all, I.LastKept(all));
  }

  lemma SuffixIsNewest(all: seq<D.Revision>, kept: seq<D.Revision>)
    requires I.Increasing(all) && |kept| == Least(|all|, D.KEEP) && kept == all[|all| - |kept|..]
    requires |set r | r in all| == |all| && |set r | r in kept| == |kept|
    ensures KeepsNewest(set r | r in all, set r | r in kept)
  {
    var from := |all| - |kept|;
    assert forall j :: 0 <= j < |kept| ==> kept[j] == all[from + j];
    forall r, k | r in all && r !in kept && k in kept ensures r.revision <= k.revision {
      var i :| 0 <= i < |all| && all[i] == r;
      var j :| 0 <= j < |kept| && kept[j] == k;
      NotKept(all, kept, i);
    }
  }

  lemma NotKept(all: seq<D.Revision>, kept: seq<D.Revision>, i: nat)
    requires |kept| <= |all| && kept == all[|all| - |kept|..] && i < |all| && all[i] !in kept
    ensures i < |all| - |kept|
  {
    assert forall j :: |all| - |kept| <= j < |all| ==> all[j] == kept[j - (|all| - |kept|)] && all[j] in kept;
  }

  lemma KeptIncreasing(all: seq<D.Revision>)
    requires I.Increasing(all)
    ensures I.Increasing(I.LastKept(all))
    ensures var kept := I.LastKept(all); |kept| == Least(|all|, D.KEEP) && kept == all[|all| - |kept|..]
  {
  }

  lemma {:induction false} Members(all: seq<D.Revision>)
    requires I.Increasing(all)
    ensures |set r | r in all| == |all|
    decreases |all|
  {
    if all != [] {
      var n := |all| - 1;
      Members(all[..n]);
      assert (set r | r in all) == (set r | r in all[..n]) + {all[n]};
      assert all[n] !in all[..n];
    }
  }
}
