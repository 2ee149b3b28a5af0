/**
 selectLatestRelease of services/updater.go over any comparison key and any
 validation: what is selected, and when the order of the candidates matters.
 */
module ReleaseSelection {
  import opened Options
  import opened ReleaseVersion
  import opened Sorting

  datatype Release = Release(
    tagName: string, name: string, notes: string, pageURL: string,
    installerURLs: seq<string>, installerName: string, installerSize: int, installerDigest: string)

  datatype Outcome = Selected(release: Release) | NoCandidates | Inconsistent | Invalid

  // What the selection looks at: the key of a tag, and whether a release passes
  // validation, which one without a key never does.
  datatype Rules = Rules(key: string -> Option<seq<nat>>, valid: Release -> bool)

  ghost predicate Sound(rules: Rules) {
    && (forall tag :: rules.key(tag).Some? ==> |rules.key(tag).value| == 6)
    && (forall r :: rules.valid(r) ==> rules.key(r.tagName).Some?)
  }

  predicate Newer(rules: Rules, candidate: Release, current: Release) {
    var left, right := rules.key(candidate.tagName), rules.key(current.tagName);
    left.Some? && right.Some? && |left.value| == |right.value| && Greater(left.value, right.value)
  }

  predicate SameVersion(rules: Rules, left: Release, right: Release) {
    rules.key(left.tagName).Some? && rules.key(left.tagName) == rules.key(right.tagName)
  }

  predicate Keyed(rules: Rules, r: Release) {
    rules.key(r.tagName).Some?
  }

  predicate AllKeyed(rules: Rules, s: seq<Release>) {
    forall r | r in s :: Keyed(rules, r)
  }

  predicate NoneKeyed(rules: Rules, s: seq<Release>) {
    forall r | r in s :: !Keyed(rules, r)
  }

  function OnlyKeyed(rules: Rules, s: seq<Release>): seq<Release> {
    Filter((r: Release) => Keyed(rules, r), s)
  }

  function Latest(rules: Rules, s: seq<Release>): (r: Release)
    requires s != []
    ensures r in s
  {
    if |s| == 1 then s[0]
    else
      var latest := Latest(rules, s[..|s| - 1]);
      if Newer(rules, s[|s| - 1], latest) then s[|s| - 1] else latest
  }

  predicate AgreesOn(rules: Rules, s: seq<Release>, r: Release) {
    forall c | c in s && SameVersion(rules, c, r) :: c == r
  }

  function Select(rules: Rules, s: seq<Release>): Outcome {
    if s == [] then NoCandidates
    else if !AgreesOn(rules, s, Latest(rules, s)) then Inconsistent
    else if !rules.valid(Latest(rules, s)) then Invalid
    else Selected(Latest(rules, s))
  }

  // ---- the loops ----

  method CompareKeys(left: seq<nat>, right: seq<nat>) returns (greater: bool, same: bool)
    requires |left| == |right|
    ensures greater <==> Greater(left, right)
    ensures same <==> left == right
  {
    for i := 0 to |left|
      invariant left[..i] == right[..i]
      invariant Greater(left, right) <==> Greater(left[i..], right[i..])
    {
      if left[i] != right[i] {
        return left[i] > right[i], false;
      }
      assert left[i..][1..] == left[i + 1..] && right[i..][1..] == right[i + 1..];
    }
    assert left[..|left|] == left && right[..|right|] == right;
    return false, true;
  }

  method IsNewerVersion(rules: Rules, candidate: Release, current: Release) returns (newer: bool)
    requires Sound(rules)
    ensures newer <==> Newer(rules, candidate, current)
  {
    var left, right := rules.key(candidate.tagName), rules.key(current.tagName);
    if left.None? || right.None? {
      return false;
    }
    var same;
    newer, same := CompareKeys(left.value, right.value);
  }

  method IsSameVersion(rules: Rules, left: Release, right: Release) returns (same: bool)
    requires Sound(rules)
    ensures same <==> SameVersion(rules, left, right)
  {
    var leftKey, rightKey := rules.key(left.tagName), rules.key(right.tagName);
    if leftKey.None? || rightKey.None? {
      return false;
    }
    var greater;
    greater, same := CompareKeys(leftKey.value, rightKey.value);
  }

  method SameReleaseMetadata(left: Release, right: Release) returns (same: bool)
    ensures same <==> left == right
  {
    if left.(installerURLs := []) != right.(installerURLs := []) || |left.installerURLs| != |right.installerURLs| {
      return false;
    }
    for i := 0 to |left.installerURLs|
      invariant left.installerURLs[..i] == right.installerURLs[..i]
    {
      if left.installerURLs[i] != right.installerURLs[i] {
        return false;
      }
    }
    assert left.installerURLs[..|left.installerURLs|] == left.installerURLs;
    assert right.installerURLs[..|right.installerURLs|] == right.installerURLs;
    assert left == right.(installerURLs := left.installerURLs);
    return true;
  }

  method FindLatest(rules: Rules, candidates: seq<Release>) returns (latest: Release)
    requires Sound(rules) && candidates != []
    ensures latest == Latest(rules, candidates)
  {
    latest := candidates[0];
    for i := 1 to |candidates|
      invariant latest == Latest(rules, candidates[..i])
    {
      assert candidates[..i + 1][..i] == candidates[..i];
      var newer := IsNewerVersion(rules, candidates[i], latest);
      if newer {
        latest := candidates[i];
      }
    }
    assert candidates[..|candidates|] == candidates;
  }

  method CheckAgreement(rules: Rules, candidates: seq<Release>, latest: Release) returns (agree: bool)
    requires Sound(rules)
    ensures agree <==> AgreesOn(rules, candidates, latest)
  {
    for i := 0 to |candidates|
      invariant forall k | 0 <= k < i && SameVersion(rules, candidates[k], latest) :: candidates[k] == latest
    {
      var same := IsSameVersion(rules, candidates[i], latest);
      if same {
        var equal := SameReleaseMetadata(candidates[i], latest);
        if !equal {
          assert candidates[i] in candidates;
          return false;
        }
      }
    }
    return true;
  }

  method SelectAmong(rules: Rules, candidates: seq<Release>) returns (outcome: Outcome)
    requires Sound(rules)
    ensures outcome == Select(rules, candidates)
  {
    if |candidates| == 0 {
      return NoCandidates;
    }
    var latest := FindLatest(rules, candidates);
    var agree := CheckAgreement(rules, candidates, latest);
    if !agree {
      return Inconsistent;
    }
    outcome := if rules.valid(latest) then Selected(latest) else Invalid;
  }

  // ---- what is selected ----

  // Newer is a total preorder on releases with keys.
  lemma NewerOrdersKeys(rules: Rules, a: Release, b: Release, c: Release)
    requires Sound(rules) && Keyed(rules, a) && Keyed(rules, b) && Keyed(rules, c)
    ensures !(Newer(rules, a, b) && Newer(rules, b, a))
    ensures !Newer(rules, a, b) && !Newer(rules, b, a) <==> SameVersion(rules, a, b)
    ensures !Newer(rules, a, b) && !Newer(rules, b, c) ==> !Newer(rules, a, c)
  {
    var k, l, m := rules.key(a.tagName).value, rules.key(b.tagName).value, rules.key(c.tagName).value;
    GreaterIsTotal(k, l);
    if Greater(k, m) && k != l && !Greater(k, l) {
      GreaterIsTransitive(l, k, m);
    }
  }

  lemma {:induction false} LatestIsMaximal(rules: Rules, s: seq<Release>)
    requires Sound(rules) && s != [] && AllKeyed(rules, s)
    ensures forall c | c in s :: !Newer(rules, c, Latest(rules, s))
  {
    if |s| == 1 {
      assert s[0] in s;
      NewerOrdersKeys(rules, s[0], s[0], s[0]);
    } else {
      var front, last := s[..|s| - 1], s[|s| - 1];
      assert s == front + [last] && last in s;
      LatestIsMaximal(rules, front);
      var latest := Latest(rules, front);
      NewerOrdersKeys(rules, last, last, last);
      NewerOrdersKeys(rules, latest, last, last);
      forall c | c in s
        ensures !Newer(rules, c, Latest(rules, s))
      {
        NewerOrdersKeys(rules, c, latest, last);
      }
    }
  }

  lemma SameMembers(s: seq<Release>, t: seq<Release>)
    requires multiset(s) == multiset(t)
    ensures |s| == |t| && forall r :: r in s <==> r in t
  {
    assert |multiset(s)| == |s| && |multiset(t)| == |t|;
    forall r
      ensures r in s <==> r in t
    {
      assert r in s <==> r in multiset(s);
      assert r in t <==> r in multiset(t);
    }
  }

  lemma OrderIsIgnored(rules: Rules, s: seq<Release>, t: seq<Release>)
    requires Sound(rules) && AllKeyed(rules, s) && multiset(s) == multiset(t)
    ensures Select(rules, s) == Select(rules, t)
  {
    SameMembers(s, t);
    if s != [] {
      LatestIsMaximal(rules, s);
      LatestIsMaximal(rules, t);
      assert Latest(rules, s) in t && Latest(rules, t) in s;
      NewerOrdersKeys(rules, Latest(rules, s), Latest(rules, t), Latest(rules, s));
      assert AgreesOn(rules, s, Latest(rules, s)) || AgreesOn(rules, t, Latest(rules, t)) ==>
             Latest(rules, s) == Latest(rules, t);
    }
  }

  // ---- candidates without a key ----

  // A first candidate without a key is never replaced; otherwise those without
  // one are never looked at.
  lemma {:induction false} LatestAmongKeyed(rules: Rules, s: seq<Release>)
    requires s != []
    ensures !Keyed(rules, s[0]) ==> Latest(rules, s) == s[0]
    ensures Keyed(rules, s[0]) ==> OnlyKeyed(rules, s) != [] && Latest(rules, s) == Latest(rules, OnlyKeyed(rules, s))
  {
    var keyed := (r: Release) => Keyed(rules, r);
    if |s| == 1 {
      assert s == [s[0]] + [];
      FilterCons(keyed, s[0], []);
    } else {
      var front, last := s[..|s| - 1], s[|s| - 1];
      assert s == front + [last] && [last] == [last] + [];
      LatestAmongKeyed(rules, front);
      FilterOfJoin(keyed, front, [last]);
      FilterCons(keyed, last, []);
      if Keyed(rules, last) {
        assert OnlyKeyed(rules, s)[..|OnlyKeyed(rules, s)| - 1] == OnlyKeyed(rules, front);
      } else {
        assert OnlyKeyed(rules, s) == OnlyKeyed(rules, front);
      }
    }
  }

  lemma SelectAmongKeyed(rules: Rules, s: seq<Release>)
    requires Sound(rules) && s != []
    ensures !Keyed(rules, s[0]) ==> Select(rules, s) == Invalid
    ensures Keyed(rules, s[0]) ==> Select(rules, s) == Select(rules, OnlyKeyed(rules, s))
  {
    LatestAmongKeyed(rules, s);
    FilterMembers((r: Release) => Keyed(rules, r), s);
  }

  lemma {:induction false} FilterPermutes(rules: Rules, s: seq<Release>)
    ensures forall r :: multiset(OnlyKeyed(rules, s))[r] == if Keyed(rules, r) then multiset(s)[r] else 0
  {
    if s != [] {
      FilterPermutes(rules, s[1..]);
      assert s == [s[0]] + s[1..];
    }
  }

  ghost predicate OrderFree(rules: Rules, s: seq<Release>) {
    forall t: seq<Release> | multiset(t) == multiset(s) :: Select(rules, t) == Select(rules, s)
  }

  lemma SelectOfPermutation(rules: Rules, s: seq<Release>, t: seq<Release>)
    requires Sound(rules) && t != [] && multiset(s) == multiset(t)
    ensures Select(rules, t) == if Keyed(rules, t[0]) then Select(rules, OnlyKeyed(rules, s)) else Invalid
  {
    SelectAmongKeyed(rules, t);
    FilterPermutes(rules, s);
    FilterPermutes(rules, t);
    assert multiset(OnlyKeyed(rules, s)) == multiset(OnlyKeyed(rules, t));
    FilterMembers((r: Release) => Keyed(rules, r), s);
    OrderIsIgnored(rules, OnlyKeyed(rules, s), OnlyKeyed(rules, t));
  }

  // Some order of s starts with r.
  lemma StartingWith(s: seq<Release>, r: Release) returns (t: seq<Release>)
    requires r in s
    ensures t != [] && t[0] == r && multiset(t) == multiset(s)
  {
    var i :| 0 <= i < |s| && s[i] == r;
    t := [r] + s[..i] + s[i + 1..];
    assert s == s[..i] + [r] + s[i + 1..];
  }

  // Exactly when the order of the candidates does not matter: they all have
  // keys, or none has, or what the keyed ones amount to is rejected anyway.
  lemma OrderFreeExactly(rules: Rules, s: seq<Release>)
    requires Sound(rules)
    ensures OrderFree(rules, s) <==>
            AllKeyed(rules, s) || NoneKeyed(rules, s) || Select(rules, OnlyKeyed(rules, s)) == Invalid
  {
    if AllKeyed(rules, s) {
      forall t: seq<Release> | multiset(t) == multiset(s)
        ensures Select(rules, t) == Select(rules, s)
      {
        OrderIsIgnored(rules, s, t);
      }
    } else if NoneKeyed(rules, s) || Select(rules, OnlyKeyed(rules, s)) == Invalid {
      SelectOfPermutation(rules, s, s);
      forall t: seq<Release> | multiset(t) == multiset(s)
        ensures Select(rules, t) == Select(rules, s)
      {
        SameMembers(s, t);
        assert s != [] && t != [] && t[0] in t && s[0] in s;
        SelectOfPermutation(rules, s, t);
      }
    } else {
      var keyed :| keyed in s && Keyed(rules, keyed);
      var bare :| bare in s && !Keyed(rules, bare);
      var t := StartingWith(s, keyed);
      var u := StartingWith(s, bare);
      SelectOfPermutation(rules, s, t);
      SelectOfPermutation(rules, s, u);
      assert Select(rules, t) != Select(rules, u);
    }
  }

  lemma FirstWithoutKeyBlocks(rules: Rules, bare: Release, r: Release)
    requires Sound(rules) && !Keyed(rules, bare) && rules.valid(r)
    ensures Select(rules, [bare, r]) == Invalid
    ensures Select(rules, [r, bare]) == Selected(r)
  {
  }
}
