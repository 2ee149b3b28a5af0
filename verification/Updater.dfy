/**
 services/updater.go: which of several sources' release metadata to offer, and
 the validation it has to pass.
 */
module Updater {
  import opened ReleaseVersion
  import opened ReleaseSelection
  import opened Sorting
  import opened Text

  const PAGES := "https://github.com/Hypostasis-Cat/HypoMux/releases/tag/"
  const DOWNLOADS := "https://github.com/Hypostasis-Cat/HypoMux/releases/download/"
  const CNB_DOWNLOADS := "https://cnb.cool/Hypostasis-Cat/HypoMux/-/releases/download/"
  const MAX_MIRRORS := 4

  // ---- validation ----

  function NormalizeTagName(value: string): string {
    if TrimSpace(value) == "" then "" else "v" + TrimV(TrimSpace(value))
  }

  predicate IsHex(c: char) {
    IsDigit(c) || 'a' <= c <= 'f' || 'A' <= c <= 'F'
  }

  predicate IsHexText(text: string) {
    |text| == 64 && forall i | 0 <= i < 64 :: IsHex(text[i])
  }

  predicate IsSHA256(value: string) {
    var trimmed := TrimSpace(value);
    var digest := if |trimmed| >= 7 && EqualFold(trimmed[..7], "sha256:") then trimmed[7..] else trimmed;
    IsHexText(digest)
  }

  lemma HexDigits(c: char)
    ensures IsHex(c) <==> c in "0123456789abcdefABCDEF"
  {
  }

  predicate IsNameChar(c: char) {
    IsDigit(c) || 'a' <= c <= 'z' || 'A' <= c <= 'Z'
  }

  lemma NameChars(c: char)
    ensures IsNameChar(c) <==>
            c in "0123456789" || c in "abcdefghijklmnopqrstuvwxyz" || c in "ABCDEFGHIJKLMNOPQRSTUVWXYZ"
  {
  }

  predicate IsInstallerName(name: string, version: string) {
    && name == "HypoMux_Setup_" + version + ".exe"
    && version != "" && IsNameChar(version[0])
    && forall i | 0 <= i < |version| :: IsNameChar(version[i]) || version[i] in {'.', '_', '+', '-'}
  }

  predicate IsOfficialMirror(url: string, tagName: string, installerName: string) {
    url == DOWNLOADS + tagName + "/" + installerName || url == CNB_DOWNLOADS + tagName + "/" + installerName
  }

  predicate ValidTag(tagName: string) {
    Key(tagName).Some? && tagName == NormalizeTagName(tagName)
  }

  predicate ValidInstaller(r: Release) {
    && IsInstallerName(r.installerName, if r.tagName != "" && r.tagName[0] == 'v' then r.tagName[1..] else r.tagName)
    && r.installerSize > 0
    && IsSHA256(r.installerDigest)
    && 0 < |r.installerURLs| <= MAX_MIRRORS
    && (forall i | 0 <= i < |r.installerURLs| :: IsOfficialMirror(r.installerURLs[i], r.tagName, r.installerName))
    && (forall i, j | 0 <= i < j < |r.installerURLs| :: r.installerURLs[i] != r.installerURLs[j])
    && (r.pageURL == "" || r.pageURL == PAGES + r.tagName)
  }

  predicate ValidRelease(r: Release) {
    ValidTag(r.tagName) && ValidInstaller(r)
  }

  // ---- selection ----

  const UPDATER_RULES := Rules(Key, ValidRelease)

  lemma UpdaterRulesAreSound()
    ensures Sound(UPDATER_RULES)
  {
  }

  method SelectLatestRelease(candidates: seq<Release>) returns (outcome: Outcome)
    ensures outcome == Select(UPDATER_RULES, candidates)
  {
    UpdaterRulesAreSound();
    outcome := SelectAmong(UPDATER_RULES, candidates);
  }

  // The selected release is valid, nothing is newer, and every candidate of its
  // version says exactly the same.
  lemma SelectedIsBest(s: seq<Release>)
    requires Select(UPDATER_RULES, s).Selected?
    ensures var r := Select(UPDATER_RULES, s).release;
            && r in s && ValidRelease(r)
            && forall c | c in s ::
                 !Newer(UPDATER_RULES, c, r) && (SameVersion(UPDATER_RULES, c, r) ==> c == r)
  {
    UpdaterRulesAreSound();
    LatestAmongKeyed(UPDATER_RULES, s);
    FilterMembers((r: Release) => Keyed(UPDATER_RULES, r), s);
    var keyed := OnlyKeyed(UPDATER_RULES, s);
    assert s[0] in s && Keyed(UPDATER_RULES, Latest(UPDATER_RULES, s));
    LatestIsMaximal(UPDATER_RULES, keyed);
    forall c | c in s && c !in keyed
      ensures !Newer(UPDATER_RULES, c, Latest(UPDATER_RULES, s)) &&
              !SameVersion(UPDATER_RULES, c, Latest(UPDATER_RULES, s))
    {
    }
  }

  // The two places an installer may come from.
  predicate IsOffered(url: string, tag: string, file: string) {
    || url == "https://github.com/Hypostasis-Cat/HypoMux/releases/download/" + tag + "/" + file
    || url == "https://cnb.cool/Hypostasis-Cat/HypoMux/-/releases/download/" + tag + "/" + file
  }

  // A digest is that text, with or without the algorithm in front.
  ghost predicate IsDigestOf(value: string, hex: string) {
    && IsHexText(hex)
    && exists prefix | EqualFold(prefix, "") || EqualFold(prefix, "sha256:") :: TrimSpace(value) == prefix + hex
  }

  lemma DigestExactly(value: string)
    ensures IsSHA256(value) <==> exists hex :: IsDigestOf(value, hex)
  {
    var trimmed := TrimSpace(value);
    if IsSHA256(value) {
      if |trimmed| >= 7 && EqualFold(trimmed[..7], "sha256:") {
        assert trimmed == trimmed[..7] + trimmed[7..] && IsHexText(trimmed[7..]);
        assert IsDigestOf(value, trimmed[7..]);
      } else {
        assert trimmed == "" + trimmed && IsHexText(trimmed);
        assert IsDigestOf(value, trimmed);
      }
    }
    if hex :| IsDigestOf(value, hex) {
      DigestIsAccepted(value, hex);
    }
  }

  lemma DigestIsAccepted(value: string, hex: string)
    requires IsDigestOf(value, hex)
    ensures IsSHA256(value)
  {
    var trimmed := TrimSpace(value);
    var prefix :| (EqualFold(prefix, "") || EqualFold(prefix, "sha256:")) && trimmed == prefix + hex;
    assert |prefix| == |Lower(prefix)| && hex == trimmed[|prefix|..];
    if |prefix| == 7 {
      assert trimmed[..7] == prefix;
    } else {
      assert trimmed == hex && IsHex(hex[0]);
      assert Lower(trimmed[..7])[0] == LowerChar(hex[0]) && Lower("sha256:")[0] == 's';
    }
  }

  // A selected release names one version; its installer comes under that
  // version's name from different ones of the official places and from no others.
  lemma SelectedIsOfficial(s: seq<Release>)
    requires Select(UPDATER_RULES, s).Selected?
    ensures var r := Select(UPDATER_RULES, s).release;
            var version := r.tagName[1..];
            && r.tagName == "v" + version && r.installerName == "HypoMux_Setup_" + version + ".exe"
            && r.installerSize >= 1 && 1 <= |r.installerURLs| <= 4
            && (forall i, j | 0 <= i < j < |r.installerURLs| :: r.installerURLs[i] != r.installerURLs[j])
            && (forall url | url in r.installerURLs :: IsOffered(url, r.tagName, r.installerName))
            && (exists hex :: IsDigestOf(r.installerDigest, hex))
            && (r.pageURL == "" || r.pageURL == "https://github.com/Hypostasis-Cat/HypoMux/releases/tag/" + r.tagName)
  {
    var r := Select(UPDATER_RULES, s).release;
    ValidTagHasV(r.tagName);
    forall url | url in r.installerURLs
      ensures IsOffered(url, r.tagName, r.installerName)
    {
      OfficialMirrorsExactly(url, r.tagName, r.installerName);
    }
    DigestExactly(r.installerDigest);
  }

  lemma ValidTagHasV(tag: string)
    requires ValidTag(tag)
    ensures tag != "" && tag == "v" + tag[1..]
  {
    NoKeyForNothing();
  }

  lemma OfficialMirrorsExactly(url: string, tag: string, file: string)
    ensures IsOfficialMirror(url, tag, file) <==> IsOffered(url, tag, file)
  {
  }

  // And whatever is like that passes: a canonical tag with a key, its installer
  // from official places, a digest, and no page or the tag's.
  lemma OfficialReleaseIsValid(r: Release, version: string, hex: string)
    requires r.tagName == "v" + version && ValidTag(r.tagName) && IsInstallerName(r.installerName, version)
    requires r.installerSize >= 1 && IsDigestOf(r.installerDigest, hex) && 1 <= |r.installerURLs| <= 4
    requires forall url | url in r.installerURLs :: IsOffered(url, r.tagName, r.installerName)
    requires forall i, j | 0 <= i < j < |r.installerURLs| :: r.installerURLs[i] != r.installerURLs[j]
    requires r.pageURL == "" || r.pageURL == "https://github.com/Hypostasis-Cat/HypoMux/releases/tag/" + r.tagName
    ensures ValidRelease(r)
  {
    DigestExactly(r.installerDigest);
    assert r.tagName[1..] == version;
    forall i | 0 <= i < |r.installerURLs|
      ensures IsOfficialMirror(r.installerURLs[i], r.tagName, r.installerName)
    {
      assert r.installerURLs[i] in r.installerURLs;
      OfficialMirrorsExactly(r.installerURLs[i], r.tagName, r.installerName);
    }
  }

  // Sources may answer in any order exactly when every tag has a key, or none
  // has, or those that have amount to an invalid release.
  lemma SelectIgnoresOrderExactly(s: seq<Release>)
    ensures (forall t: seq<Release> | multiset(t) == multiset(s) ::
               Select(UPDATER_RULES, t) == Select(UPDATER_RULES, s)) <==>
            || AllKeyed(UPDATER_RULES, s)
            || NoneKeyed(UPDATER_RULES, s)
            || Select(UPDATER_RULES, OnlyKeyed(UPDATER_RULES, s)) == Invalid
  {
    UpdaterRulesAreSound();
    OrderFreeExactly(UPDATER_RULES, s);
  }

  function PlainRelease(version: string): Release {
    var tag, installer := "v" + version, "HypoMux_Setup_" + version + ".exe";
    Release(tag, "", "", "", [DOWNLOADS + tag + "/" + installer], installer, 1, seq(64, _ => 'a'))
  }

  // A first answer without a key hides a valid release that a later answer of
  // the same kind does not.
  lemma BlockedExample()
    ensures var release := PlainRelease("1.2.3");
            var bare := release.(tagName := "");
            && !Keyed(UPDATER_RULES, bare)
            && Select(UPDATER_RULES, [bare, release]) == Invalid
            && Select(UPDATER_RULES, [release, bare]) == Selected(release)
  {
    var release := PlainRelease("1.2.3");
    UpdaterRulesAreSound();
    ExampleIsValid();
    NoKeyForNothing();
    FirstWithoutKeyBlocks(UPDATER_RULES, release.(tagName := ""), release);
  }

  lemma ExampleTag()
    ensures ValidTag("v" + "1.2.3")
  {
    var v := Version(1, 2, 3, Stable, 0);
    assert String(v) == "1.2.3";
    KeyOfString(v);
    StringIsTrimmed(v);
  }

  lemma NoKeyForNothing()
    ensures Key("").None?
  {
  }

  lemma ExampleIsValid()
    ensures ValidRelease(PlainRelease("1.2.3"))
  {
    ExampleTag();
    NumbersAndDots("1.2.3");
    PlainReleaseIsValid("1.2.3");
  }

  lemma NumbersAndDots(version: string)
    requires |version| == 5 && version[1] == version[3] == '.'
    requires IsDigit(version[0]) && IsDigit(version[2]) && IsDigit(version[4])
    ensures IsInstallerName("HypoMux_Setup_" + version + ".exe", version)
  {
    assert IsNameChar(version[0]) && IsNameChar(version[2]) && IsNameChar(version[4]);
  }

  lemma PlainDigest(digest: string)
    requires |digest| == 64 && forall i | 0 <= i < 64 :: digest[i] == 'a'
    ensures IsSHA256(digest)
  {
    assert TrimSpace(digest) == digest;
    assert !EqualFold(digest[..7], "sha256:") by {
      assert Lower(digest[..7])[0] == 'a' && Lower("sha256:")[0] == 's';
    }
    assert forall i | 0 <= i < 64 :: IsHex(digest[i]) by {
      assert IsHex('a');
    }
  }

  lemma PlainReleaseIsValid(version: string)
    requires ValidTag("v" + version) && IsInstallerName("HypoMux_Setup_" + version + ".exe", version)
    ensures ValidRelease(PlainRelease(version))
  {
    PlainDigest(PlainRelease(version).installerDigest);
    assert ("v" + version)[1..] == version;
  }
}
