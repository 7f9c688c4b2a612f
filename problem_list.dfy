/** The problem list page's grouping (`pages/ProblemList/ProblemList.tsx`):
    problems are grouped by their capitalised difficulty, in the order each
    group first appears, and every group gets a URL-friendly id. */
module ProblemList {
  import opened Common

  /** The part of `ProblemData` the grouping reads. `difficulty` is `None`
      when it is `undefined` or `null`. */
  datatype Problem = Problem(id: string, title: string, difficulty: Option<string>)

  /** The `Topic` the page renders. */
  datatype Topic = Topic(topic: string, topicId: string, problems: seq<Problem>)

  const GeneralTopic: string := "General"

  /** `charAt(0).toUpperCase() + slice(1)` on a non-empty text. */
  function Capitalize(d: string): (r: string)
    requires d != []
    ensures |r| == |d| && r[0] == UpperChar(d[0]) && r[1..] == d[1..]
  {
    [UpperChar(d[0])] + d[1..]
  }

  /** Capitalising twice is capitalising once. */
  lemma CapitalizeIdempotent(d: string)
    requires d != []
    ensures Capitalize(Capitalize(d)) == Capitalize(d)
  {
  }

  /** A falsy difficulty (missing or empty) puts the problem under
      "General"; any other difficulty is capitalised. */
  function TopicOf(p: Problem): (t: string)
    ensures t != []
    ensures p.difficulty.None? || p.difficulty == Some("") ==> t == GeneralTopic
    ensures p.difficulty.Some? && p.difficulty.value != "" ==>
              |t| == |p.difficulty.value| && t[0] == UpperChar(p.difficulty.value[0])
              && t[1..] == p.difficulty.value[1..]
  {
    if p.difficulty.Some? && p.difficulty.value != "" then Capitalize(p.difficulty.value) else GeneralTopic
  }

  /** The three difficulties of the schema name the topics the page shows. */
  lemma SchemaDifficultiesTopics(id: string, title: string)
    ensures TopicOf(Problem(id, title, Some("easy"))) == "Easy"
    ensures TopicOf(Problem(id, title, Some("medium"))) == "Medium"
    ensures TopicOf(Problem(id, title, Some("hard"))) == "Hard"
    ensures TopicOf(Problem(id, title, None)) == GeneralTopic
  {
  }

  /** `replace(/\s+/g, '-')`: every maximal run of whitespace becomes one
      `-`. */
  function DashRuns(s: string): (r: string)
    ensures |r| <= |s|
    decreases |s|
  {
    if s == [] then []
    else if JsIsSpace(s[0]) then "-" + DashRuns(TrimStart(s[1..], JsIsSpace))
    else [s[0]] + DashRuns(s[1..])
  }

  /** No whitespace is left, and every other character is a dash or comes
      from the input. */
  lemma {:induction false} DashRunsClean(s: string)
    ensures forall i :: 0 <= i < |DashRuns(s)| ==>
              !JsIsSpace(DashRuns(s)[i]) && (DashRuns(s)[i] == '-' || DashRuns(s)[i] in s)
    decreases |s|
  {
    if s != [] {
      var r := DashRuns(s);
      if JsIsSpace(s[0]) {
        var t := TrimStart(s[1..], JsIsSpace);
        DashRunsClean(t);
        assert forall k :: 0 <= k < |t| ==> t[k] == s[|s| - |t| + k];
        assert r == "-" + DashRuns(t);
      } else {
        DashRunsClean(s[1..]);
        assert r == [s[0]] + DashRuns(s[1..]);
      }
    }
  }

  /** A text without whitespace is left as it is. */
  lemma {:induction false} DashRunsKeepsWords(s: string)
    requires forall i :: 0 <= i < |s| ==> !JsIsSpace(s[i])
    ensures DashRuns(s) == s
    decreases |s|
  {
    if s != [] {
      DashRunsKeepsWords(s[1..]);
    }
  }

  /** Runs of whitespace of any length give the same single dash. */
  lemma {:induction false} DashRunsCollapse(a: string, gap: string, b: string)
    requires gap != [] && forall i :: 0 <= i < |gap| ==> JsIsSpace(gap[i])
    requires b == [] || !JsIsSpace(b[0])
    requires forall i :: 0 <= i < |a| ==> !JsIsSpace(a[i])
    ensures DashRuns(a + gap + b) == a + "-" + DashRuns(b)
    decreases |a|
  {
    if a == [] {
      assert a + gap + b == gap + b;
      DashRunsOfGap(gap, b);
    } else {
      assert a + gap + b == [a[0]] + (a[1..] + gap + b);
      DashRunsWord(a[0], a[1..] + gap + b);
      DashRunsCollapse(a[1..], gap, b);
      assert [a[0]] + (a[1..] + "-" + DashRuns(b)) == a + "-" + DashRuns(b);
    }
  }

  /** A character that is not whitespace is kept, and the rest replaced. */
  lemma DashRunsWord(c: char, t: string)
    requires !JsIsSpace(c)
    ensures DashRuns([c] + t) == [c] + DashRuns(t)
  {
    assert ([c] + t)[0] == c && ([c] + t)[1..] == t;
  }

  lemma DashRunsOfGap(gap: string, b: string)
    requires gap != [] && forall i :: 0 <= i < |gap| ==> JsIsSpace(gap[i])
    requires b == [] || !JsIsSpace(b[0])
    ensures DashRuns(gap + b) == "-" + DashRuns(b)
  {
    assert (gap + b)[0] == gap[0];
    assert (gap + b)[1..] == gap[1..] + b;
    TrimSpacesBefore(gap[1..], b);
  }

  /** Trimming the start of a whitespace run followed by a word leaves the
      word. */
  lemma TrimSpacesBefore(gap: string, b: string)
    requires forall i :: 0 <= i < |gap| ==> JsIsSpace(gap[i])
    requires b == [] || !JsIsSpace(b[0])
    ensures TrimStart(gap + b, JsIsSpace) == b
    decreases |gap|
  {
    if gap != [] {
      assert (gap + b)[1..] == gap[1..] + b;
      TrimSpacesBefore(gap[1..], b);
    }
  }

  /** `topic.toLowerCase().replace(/\s+/g, '-')`. */
  function TopicId(topic: string): (id: string)
    ensures forall i :: 0 <= i < |id| ==> !JsIsSpace(id[i]) && !IsUpper(id[i])
  {
    DashRunsClean(Lower(topic));
    DashRuns(Lower(topic))
  }

  /** A one-word topic's id is the topic in lower case. */
  lemma OneWordTopicId(topic: string)
    requires forall i :: 0 <= i < |topic| ==> !JsIsSpace(topic[i])
    ensures TopicId(topic) == Lower(topic)
  {
    DashRunsKeepsWords(Lower(topic));
  }

  // ---------------------------------------------------------------- specification

  /** The topics of `ps`, each once, in the order they first appear (the
      insertion order of the `Map`). */
  function Topics(ps: seq<Problem>): (ts: seq<string>)
    ensures |ts| <= |ps|
  {
    if ps == [] then []
    else
      var prev := Topics(ps[..|ps| - 1]);
      var t := TopicOf(ps[|ps| - 1]);
      if t in prev then prev else prev + [t]
  }

  /** A topic is listed exactly when some problem has it. */
  lemma {:induction false} TopicsListed(ps: seq<Problem>)
    ensures forall t :: t in Topics(ps) <==> exists i :: 0 <= i < |ps| && TopicOf(ps[i]) == t
  {
    if ps != [] {
      var q := ps[..|ps| - 1];
      TopicsListed(q);
      assert forall i :: 0 <= i < |q| ==> q[i] == ps[i];
      forall t | exists i :: 0 <= i < |ps| && TopicOf(ps[i]) == t
        ensures t in Topics(ps)
      {
        var i :| 0 <= i < |ps| && TopicOf(ps[i]) == t;
        if i < |q| {
          assert TopicOf(q[i]) == t;
        }
      }
    }
  }

  /** No topic is listed twice. */
  predicate Distinct(ts: seq<string>) {
    forall i, j :: 0 <= i < j < |ts| ==> ts[i] != ts[j]
  }

  lemma {:induction false} TopicsDistinct(ps: seq<Problem>)
    ensures Distinct(Topics(ps))
  {
    if ps != [] {
      TopicsDistinct(ps[..|ps| - 1]);
    }
  }

  /** The problems of topic `t`, in list order. */
  function Members(ps: seq<Problem>, t: string): (m: seq<Problem>)
    ensures |m| <= |ps|
  {
    if ps == [] then []
    else
      var last := ps[|ps| - 1];
      Members(ps[..|ps| - 1], t) + (if TopicOf(last) == t then [last] else [])
  }

  /** The members of `t` are problems of the list, all of topic `t`. */
  lemma {:induction false} MembersOfTopic(ps: seq<Problem>, t: string)
    ensures forall q :: q in Members(ps, t) ==> q in ps && TopicOf(q) == t
  {
    if ps != [] {
      var init := ps[..|ps| - 1];
      MembersOfTopic(init, t);
      assert forall q :: q in init ==> q in ps;
    }
  }

  /** The page's groups, specified on values. */
  function Grouped(ps: seq<Problem>): seq<Topic> {
    var ts := Topics(ps);
    seq(|ts|, j requires 0 <= j < |ts| => Topic(ts[j], TopicId(ts[j]), Members(ps, ts[j])))
  }

  // ---------------------------------------------------------------- the method

  /** The `Map` after the problems `ps`: its keys in insertion order are
      the topics of `ps`, and each holds that topic's members. */
  ghost predicate Filled(ps: seq<Problem>, keys: seq<string>, buckets: map<string, seq<Problem>>) {
    && keys == Topics(ps)
    && (forall t :: t in buckets <==> t in keys)
    && (forall t :: t in buckets ==> buckets[t] == Members(ps, t))
  }

  /** `groupProblemsByTopic`: a `Map` from topic to its problems, filled in
      one pass, then turned into the list of groups in insertion order. The
      `Map` is `keys` (its insertion order) with `buckets`. */
  method GroupProblemsByTopic(problems: seq<Problem>) returns (groups: seq<Topic>)
    ensures groups == Grouped(problems)
  {
    var keys: seq<string> := [];
    var buckets: map<string, seq<Problem>> := map[];
    for i := 0 to |problems|
      invariant Filled(problems[..i], keys, buckets)
    {
      var topic := TopicOf(problems[i]);
      assert problems[..i + 1] == problems[..i] + [problems[i]];
      FillStep(problems[..i], problems[i], keys, buckets);
      if topic !in buckets {
        keys := keys + [topic];
        buckets := buckets[topic := []];
      }
      buckets := buckets[topic := buckets[topic] + [problems[i]]];
    }
    assert problems[..|problems|] == problems;
    groups := seq(|keys|, j requires 0 <= j < |keys| => Topic(keys[j], TopicId(keys[j]), buckets[keys[j]]));
    FilledGroups(problems, keys, buckets, groups);
  }

  /** One more problem: a new topic is appended to the keys with an empty
      bucket, and the problem joins its topic's bucket. */
  lemma FillStep(ps: seq<Problem>, p: Problem, keys: seq<string>, buckets: map<string, seq<Problem>>)
    requires Filled(ps, keys, buckets)
    ensures var t := TopicOf(p);
            var keys' := if t in buckets then keys else keys + [t];
            var b := if t in buckets then buckets else buckets[t := []];
            Filled(ps + [p], keys', b[t := b[t] + [p]])
  {
    var t := TopicOf(p);
    var keys' := if t in buckets then keys else keys + [t];
    var b := if t in buckets then buckets else buckets[t := []];
    var b' := b[t := b[t] + [p]];
    TopicsStep(ps, p);
    assert keys' == Topics(ps + [p]);
    forall u ensures u in b' <==> u in keys' {
      assert u in keys' <==> u in keys || u == t;
    }
    if t !in buckets {
      MembersOfAbsent(ps, t);
    }
    forall u | u in b' ensures b'[u] == Members(ps + [p], u) {
      MembersStep(ps, p, u);
      if u != t {
        assert b'[u] == buckets[u];
      }
    }
  }

  lemma TopicsStep(ps: seq<Problem>, p: Problem)
    ensures Topics(ps + [p]) == if TopicOf(p) in Topics(ps) then Topics(ps) else Topics(ps) + [TopicOf(p)]
  {
    assert (ps + [p])[..|ps|] == ps;
  }

  lemma MembersStep(ps: seq<Problem>, p: Problem, t: string)
    ensures Members(ps + [p], t) == Members(ps, t) + if TopicOf(p) == t then [p] else []
  {
    assert (ps + [p])[..|ps|] == ps;
  }

  /** The finished `Map`'s entries are the groups. */
  lemma FilledGroups(ps: seq<Problem>, keys: seq<string>, buckets: map<string, seq<Problem>>, groups: seq<Topic>)
    requires Filled(ps, keys, buckets)
    requires groups == seq(|keys|, j requires 0 <= j < |keys| => Topic(keys[j], TopicId(keys[j]), buckets[keys[j]]))
    ensures groups == Grouped(ps)
  {
  }

  /** A topic that does not appear has no members. */
  lemma {:induction false} MembersOfAbsent(ps: seq<Problem>, t: string)
    requires t !in Topics(ps)
    ensures Members(ps, t) == []
  {
    if ps != [] {
      assert TopicOf(ps[|ps| - 1]) != t;
      MembersOfAbsent(ps[..|ps| - 1], t);
    }
  }

  // ---------------------------------------------------------------- properties

  /** The group sizes of `ts`, added up. */
  function TotalSize(ps: seq<Problem>, ts: seq<string>): nat {
    if ts == [] then 0 else |Members(ps, ts[0])| + TotalSize(ps, ts[1..])
  }

  lemma {:induction false} TotalSizeAppend(ps: seq<Problem>, ts: seq<string>, t: string)
    ensures TotalSize(ps, ts + [t]) == TotalSize(ps, ts) + |Members(ps, t)|
  {
    if ts != [] {
      assert (ts + [t])[1..] == ts[1..] + [t];
      TotalSizeAppend(ps, ts[1..], t);
    }
  }

  /** One more problem adds one to exactly the group of its topic. */
  lemma {:induction false} TotalSizeGrows(ps: seq<Problem>, p: Problem, ts: seq<string>)
    requires Distinct(ts)
    ensures TotalSize(ps + [p], ts) == TotalSize(ps, ts) + (if TopicOf(p) in ts then 1 else 0)
  {
    assert (ps + [p])[..|ps|] == ps;
    if ts != [] {
      assert TopicOf(p) in ts <==> TopicOf(p) == ts[0] || TopicOf(p) in ts[1..];
      assert TopicOf(p) == ts[0] ==> TopicOf(p) !in ts[1..];
      TotalSizeGrows(ps, p, ts[1..]);
    }
  }

  /** Every problem lands in exactly one group: the group sizes add up to
      the number of problems. */
  lemma {:induction false} GroupSizesAddUp(ps: seq<Problem>)
    ensures TotalSize(ps, Topics(ps)) == |ps|
  {
    if ps != [] {
      var q, p := ps[..|ps| - 1], ps[|ps| - 1];
      assert q + [p] == ps;
      var prev := Topics(q);
      GroupSizesAddUp(q);
      TopicsDistinct(q);
      TotalSizeGrows(q, p, prev);
      if TopicOf(p) !in prev {
        TotalSizeAppend(ps, prev, TopicOf(p));
        MembersOfAbsent(q, TopicOf(p));
      }
    }
  }

  /** Each group holds exactly the problems of its topic, in list order,
      under distinct topic names; and every problem is in the group of its
      own topic. */
  lemma GroupsMeaning(ps: seq<Problem>)
    ensures var gs := Grouped(ps);
            && (forall j, k :: 0 <= j < k < |gs| ==> gs[j].topic != gs[k].topic)
            && (forall j :: 0 <= j < |gs| ==> gs[j].problems == Members(ps, gs[j].topic))
            && (forall i :: 0 <= i < |ps| ==> exists j :: 0 <= j < |gs| && gs[j].topic == TopicOf(ps[i]))
            && (forall j :: 0 <= j < |gs| ==> gs[j].topicId == TopicId(gs[j].topic))
  {
    TopicsDistinct(ps);
    TopicsListed(ps);
    var gs := Grouped(ps);
    var ts := Topics(ps);
    forall i | 0 <= i < |ps|
      ensures exists j :: 0 <= j < |gs| && gs[j].topic == TopicOf(ps[i])
    {
      assert TopicOf(ps[i]) in ts;
      var j :| 0 <= j < |ts| && ts[j] == TopicOf(ps[i]);
      assert gs[j].topic == TopicOf(ps[i]);
    }
  }

  /** A problem is a member of its topic's group as often as it occurs in
      the list. */
  lemma {:induction false} MembersCount(ps: seq<Problem>, p: Problem)
    ensures multiset(Members(ps, TopicOf(p)))[p] == multiset(ps)[p]
  {
    if ps != [] {
      var q := ps[..|ps| - 1];
      assert q + [ps[|ps| - 1]] == ps;
      MembersCount(q, p);
    }
  }
}
