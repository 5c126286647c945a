/// The markup side of the podcast pipeline (`SSMLProcessor`): the emotion
/// tables, the emotion lookup, the removal of emotion tags and the rewrite of
/// the script's shorthand into the `<emphasis>`, `<prosody>` and `<break>`
/// elements of the W3C Speech Synthesis Markup Language 1.1 (sections 3.2.2,
/// 3.2.4 and 3.2.3).
module Ssml {
  import opened Options
  import opened Text

  // ---------------------------------------------------------------------
  // Tables
  // ---------------------------------------------------------------------

  /** A stability or style value; every table entry lies within [0, 1]. */
  type Level = r: real | 0.0 <= r <= 1.0

  /** The `{"stability": …, "style": …}` record an emotion tag stands for. */
  datatype Tone = Tone(stability: Level, style: Level)

  /** Voice settings as the Python code passes them around: a dict from
      setting name to number. */
  type Settings = map<string, real>

  const StabilityKey := "stability"
  const StyleKey := "style"

  /** The dict `{"stability": t.stability, "style": t.style}`. */
  function AsSettings(t: Tone): (s: Settings)
    ensures s.Keys == {StabilityKey, StyleKey}
    ensures s[StabilityKey] == t.stability && s[StyleKey] == t.style
  {
    map[StabilityKey := t.stability, StyleKey := t.style]
  }

  /** `dutch_emotions`, in declaration order (a Python dict iterates in
      insertion order). */
  const DutchEmotions: seq<(string, Tone)> := [
    // positive
    ("[vrolijk]", Tone(0.3, 0.7)),
    ("[blij]", Tone(0.3, 0.6)),
    ("[opgewonden]", Tone(0.2, 0.8)),
    ("[enthousiast]", Tone(0.4, 0.7)),
    ("[speels]", Tone(0.3, 0.8)),
    ("[trots]", Tone(0.6, 0.5)),
    ("[zelfverzekerd]", Tone(0.7, 0.4)),
    ("[tevreden]", Tone(0.8, 0.3)),
    ("[lachend]", Tone(0.2, 0.9)),
    // curiosity and interest
    ("[nieuwsgierig]", Tone(0.4, 0.6)),
    ("[ge\U{00EF}nteresseerd]", Tone(0.5, 0.5)),
    ("[oprecht ge\U{00EF}nteresseerd]", Tone(0.6, 0.5)),
    ("[fascinerend]", Tone(0.4, 0.7)),
    ("[verwonderd]", Tone(0.3, 0.6)),
    // surprise and discovery
    ("[verrast]", Tone(0.3, 0.7)),
    ("[verbaasd]", Tone(0.4, 0.6)),
    ("[geschokt]", Tone(0.2, 0.8)),
    ("[onder de indruk]", Tone(0.5, 0.6)),
    // calm
    ("[rustig]", Tone(0.9, 0.1)),
    ("[kalm]", Tone(0.9, 0.2)),
    ("[bedachtzaam]", Tone(0.8, 0.2)),
    ("[peinzend]", Tone(0.8, 0.3)),
    ("[wijsheid]", Tone(0.9, 0.2)),
    ("[serieus]", Tone(0.8, 0.3)),
    // doubt
    ("[aarzelend]", Tone(0.6, 0.4)),
    ("[onzeker]", Tone(0.5, 0.4)),
    ("[twijfelend]", Tone(0.6, 0.3)),
    ("[voorzichtig]", Tone(0.7, 0.3)),
    // emotional
    ("[bezorgd]", Tone(0.5, 0.5)),
    ("[teleurgesteld]", Tone(0.6, 0.4)),
    ("[verdrietig]", Tone(0.7, 0.3)),
    ("[melancholisch]", Tone(0.8, 0.3)),
    // special
    ("[ironisch]", Tone(0.4, 0.6)),
    ("[sarcastisch]", Tone(0.5, 0.7)),
    ("[dromerig]", Tone(0.7, 0.4)),
    ("[mysterieus]", Tone(0.6, 0.5)),
    ("[fluisterend]", Tone(0.8, 0.2)),
    // intensity
    ("[heel rustig]", Tone(0.95, 0.1)),
    ("[super enthousiast]", Tone(0.1, 0.9)),
    ("[licht geamuseerd]", Tone(0.6, 0.4)),
    ("[diep geraakt]", Tone(0.7, 0.5))
  ]

  /** The keys of a table, in order. */
  function Keys<V>(table: seq<(string, V)>): seq<string>
  {
    seq(|table|, k requires 0 <= k < |table| => table[k].0)
  }

  /** The keys of `dutch_emotions`, in order. */
  const DutchTags: seq<string> := Keys(DutchEmotions)

  /** `legacy_emotions`: the older English tags that cleaning removes. */
  const LegacyEmotions: seq<string> :=
    ["[EXCITED]", "[THOUGHTFUL]", "[SURPRISED]", "[CALM]", "[ENTHUSIASTIC]"]

  /** `legacy_mapping`, in declaration order: English tag to canonical tag. */
  const LegacyMapping: seq<(string, string)> := [
    ("[EXCITED]", "[opgewonden]"),
    ("[THOUGHTFUL]", "[bedachtzaam]"),
    ("[SURPRISED]", "[verrast]"),
    ("[CALM]", "[kalm]"),
    ("[ENTHUSIASTIC]", "[enthousiast]")
  ]

  /** Where each legacy tag's canonical tag sits in `DutchEmotions`. */
  const LegacyTargetIndex: seq<nat> := [2, 20, 14, 19, 3]

  /** A canonical tag: bracketed by `[` and `]`, opening with a lower-case
      letter. */
  predicate TagShape(t: string) {
    Bracketed(t, '[', ']') && 'a' <= t[1] <= 'z'
  }

  /** Every canonical tag has the shape of one. */
  lemma DutchTagShapes()
    ensures forall k :: 0 <= k < |DutchEmotions| ==> TagShape(DutchEmotions[k].0)
  {
    TagShapes0();
    TagShapes7();
    TagShapes14();
    TagShapes21();
    TagShapes28();
    TagShapes35();
  }

  // The rows are checked seven at a time.
  lemma TagShapes0()
    ensures forall k :: 0 <= k < 7 ==> TagShape(DutchEmotions[k].0)
  {
  }

  lemma TagShapes7()
    ensures forall k :: 7 <= k < 14 ==> TagShape(DutchEmotions[k].0)
  {
  }

  lemma TagShapes14()
    ensures forall k :: 14 <= k < 21 ==> TagShape(DutchEmotions[k].0)
  {
  }

  lemma TagShapes21()
    ensures forall k :: 21 <= k < 28 ==> TagShape(DutchEmotions[k].0)
  {
  }

  lemma TagShapes28()
    ensures forall k :: 28 <= k < 35 ==> TagShape(DutchEmotions[k].0)
  {
  }

  lemma TagShapes35()
    ensures forall k :: 35 <= k < 41 ==> TagShape(DutchEmotions[k].0)
  {
  }

  /** `DutchTags` lists the tags of `DutchEmotions` in order. */
  lemma DutchTagsInOrder()
    ensures |DutchTags| == |DutchEmotions|
    ensures forall k :: 0 <= k < |DutchTags| ==> DutchTags[k] == DutchEmotions[k].0
    ensures forall k :: 0 <= k < |DutchTags| ==> TagShape(DutchTags[k])
  {
    DutchTagShapes();
  }

  /** Every legacy tag is bracketed by `[` and `]`, holds capitals only
      between them, and is the key of the same row of `LegacyMapping`. */
  lemma LegacyTagShapes()
    ensures |LegacyEmotions| == |LegacyMapping| == |LegacyTargetIndex| == 5
    ensures forall k :: 0 <= k < |LegacyEmotions| ==>
      LegacyEmotions[k] == LegacyMapping[k].0 && Bracketed(LegacyEmotions[k], '[', ']')
      && forall i :: 0 < i < |LegacyEmotions[k]| - 1 ==> IsUpper(LegacyEmotions[k][i])
  {
  }

  // ---------------------------------------------------------------------
  // Emotion lookup (`extract_emotion`)
  // ---------------------------------------------------------------------

  /** The first entry of `table`, in order, whose key occurs in `line`. */
  function FirstHit<V>(line: string, table: seq<(string, V)>): (r: Option<nat>)
    ensures r.Some? ==> r.value < |table| && Contains(line, table[r.value].0)
    ensures r.Some? ==> forall j :: 0 <= j < r.value ==> !Contains(line, table[j].0)
    ensures r.None? ==> forall j :: 0 <= j < |table| ==> !Contains(line, table[j].0)
  {
    if table == [] then None
    else if Contains(line, table[0].0) then Some(0)
    else
      match FirstHit(line, table[1..])
      case None => None
      case Some(k) => Some(k + 1)
  }

  /** The first entry of `table` whose key is `key`. */
  function KeyIndex<V>(table: seq<(string, V)>, key: string): (r: Option<nat>)
    ensures r.Some? ==> r.value < |table| && table[r.value].0 == key
    ensures r.Some? ==> forall j :: 0 <= j < r.value ==> table[j].0 != key
    ensures r.None? ==> forall j :: 0 <= j < |table| ==> table[j].0 != key
  {
    if table == [] then None
    else if table[0].0 == key then Some(0)
    else
      match KeyIndex(table[1..], key)
      case None => None
      case Some(k) => Some(k + 1)
  }

  /** `self.dutch_emotions.get(tag, {})`. */
  function DutchGet(tag: string): Settings
  {
    match KeyIndex(DutchEmotions, tag)
    case Some(k) => AsSettings(DutchEmotions[k].1)
    case None => map[]
  }

  /** What `extract_emotion(line)` returns: the settings of the first
      canonical tag that occurs in `line`, else those of the canonical tag
      behind the first legacy tag that occurs, else `{}`. */
  function EmotionFor(line: string): Settings
  {
    match FirstHit(line, DutchEmotions)
    case Some(k) => AsSettings(DutchEmotions[k].1)
    case None =>
      match FirstHit(line, LegacyMapping)
      case Some(k) => DutchGet(LegacyMapping[k].1)
      case None => map[]
  }

  method Scan<V>(line: string, table: seq<(string, V)>) returns (r: Option<nat>)
    ensures r == FirstHit(line, table)
  {
    for k := 0 to |table|
      invariant forall j :: 0 <= j < k ==> !Contains(line, table[j].0)
    {
      if Contains(line, table[k].0) {
        assert FirstHit(line, table) == Some(k);
        return Some(k);
      }
    }
    return None;
  }

  method ExtractEmotion(line: string) returns (settings: Settings)
    ensures settings == EmotionFor(line)
  {
    var hit := Scan(line, DutchEmotions);
    if hit.Some? {
      return AsSettings(DutchEmotions[hit.value].1);
    }
    var legacy := Scan(line, LegacyMapping);
    if legacy.Some? {
      return DutchGet(LegacyMapping[legacy.value].1);
    }
    return map[];
  }

  /** The first key equal to `key` is at `idx`. */
  lemma KeyIndexAt<V>(table: seq<(string, V)>, key: string, idx: nat)
    requires idx < |table| && table[idx].0 == key
    requires forall j :: 0 <= j < idx ==> table[j].0 != key
    ensures KeyIndex(table, key) == Some(idx)
  {
    var r := KeyIndex(table, key);
    assert r.Some?;
    assert r.value <= idx;
  }

  /** Each legacy tag resolves to the entry of the canonical tag it maps to. */
  lemma LegacyTargetKnown(k: nat)
    requires k < |LegacyMapping|
    ensures LegacyTargetIndex[k] < |DutchEmotions|
    ensures DutchEmotions[LegacyTargetIndex[k]].0 == LegacyMapping[k].1
    ensures DutchGet(LegacyMapping[k].1) == AsSettings(DutchEmotions[LegacyTargetIndex[k]].1)
  {
    KeyIndexAt(DutchEmotions, LegacyMapping[k].1, LegacyTargetIndex[k]);
  }

  lemma LegacyTargetsKnown()
    ensures forall k :: 0 <= k < |LegacyMapping| ==>
      LegacyTargetIndex[k] < |DutchEmotions|
      && DutchEmotions[LegacyTargetIndex[k]].0 == LegacyMapping[k].1
      && DutchGet(LegacyMapping[k].1) == AsSettings(DutchEmotions[LegacyTargetIndex[k]].1)
  {
    forall k | 0 <= k < |LegacyMapping|
      ensures LegacyTargetIndex[k] < |DutchEmotions|
      ensures DutchEmotions[LegacyTargetIndex[k]].0 == LegacyMapping[k].1
      ensures DutchGet(LegacyMapping[k].1) == AsSettings(DutchEmotions[LegacyTargetIndex[k]].1)
    {
      LegacyTargetKnown(k);
    }
  }

  /** The first canonical tag in table order that occurs in the line decides
      the settings, wherever in the line it stands. */
  lemma CanonicalTagDecides(line: string, k: nat)
    requires k < |DutchEmotions| && Contains(line, DutchEmotions[k].0)
    requires forall j :: 0 <= j < k ==> !Contains(line, DutchEmotions[j].0)
    ensures EmotionFor(line) == AsSettings(DutchEmotions[k].1)
  {
    var r := FirstHit(line, DutchEmotions);
    assert r.Some? && r.value <= k;
  }

  /** With no canonical tag in the line, the first legacy tag in mapping
      order decides, through the canonical tag it maps to. */
  lemma LegacyTagDecides(line: string, k: nat)
    requires forall j :: 0 <= j < |DutchEmotions| ==> !Contains(line, DutchEmotions[j].0)
    requires k < |LegacyMapping| && Contains(line, LegacyMapping[k].0)
    requires forall j :: 0 <= j < k ==> !Contains(line, LegacyMapping[j].0)
    ensures EmotionFor(line) == AsSettings(DutchEmotions[LegacyTargetIndex[k]].1)
    ensures EmotionFor(line) != map[]
  {
    var r := FirstHit(line, LegacyMapping);
    assert r.Some? && r.value <= k;
    LegacyTargetKnown(k);
    assert StabilityKey in EmotionFor(line);
  }

  /** A line with no known tag gets the empty settings. */
  lemma NoTagNoSettings(line: string)
    requires forall j :: 0 <= j < |DutchEmotions| ==> !Contains(line, DutchEmotions[j].0)
    requires forall j :: 0 <= j < |LegacyMapping| ==> !Contains(line, LegacyMapping[j].0)
    ensures EmotionFor(line) == map[]
  {
    assert FirstHit(line, DutchEmotions).None?;
    assert FirstHit(line, LegacyMapping).None?;
  }

  /** The lookup yields `{}` or exactly a stability and a style in [0, 1]. */
  lemma EmotionSettingsShape(line: string)
    ensures var s := EmotionFor(line);
      s == map[] || (s.Keys == {StabilityKey, StyleKey}
        && 0.0 <= s[StabilityKey] <= 1.0 && 0.0 <= s[StyleKey] <= 1.0)
  {
    match FirstHit(line, DutchEmotions)
    case Some(k) =>
    case None =>
      match FirstHit(line, LegacyMapping)
      case Some(k) => LegacyTargetKnown(k);
      case None =>
  }

  /** Table order, not position in the line, decides: `[blij]` stands first
      but `[vrolijk]` comes first in the table. */
  lemma TableOrderNotLeftmost()
    ensures Contains("[blij] en [vrolijk]", "[blij]")
    ensures EmotionFor("[blij] en [vrolijk]") == AsSettings(DutchEmotions[0].1)
    ensures EmotionFor("[blij] en [vrolijk]") != AsSettings(DutchEmotions[1].1)
  {
    var line := "[blij] en [vrolijk]";
    assert StartsWith(line, "[blij]");
    assert OccursAt(line, "[vrolijk]", 10);
    ContainsIffOccurs(line, "[vrolijk]");
    CanonicalTagDecides(line, 0);
    assert AsSettings(DutchEmotions[0].1)[StyleKey] != AsSettings(DutchEmotions[1].1)[StyleKey];
  }

  // ---------------------------------------------------------------------
  // Tag removal (`_clean_emotion_markers`)
  // ---------------------------------------------------------------------

  /** Remove every occurrence of each tag in turn, by `str.replace(tag, '')`. */
  function RemoveTags(s: string, tags: seq<string>): (r: string)
    requires forall k :: 0 <= k < |tags| ==> tags[k] != []
    ensures |r| <= |s|
    ensures (forall k :: 0 <= k < |tags| ==> !Contains(s, tags[k])) ==> r == s
  {
    if tags == [] then s
    else Replace(RemoveTags(s, tags[..|tags| - 1]), tags[|tags| - 1], "")
  }

  /** Removing the tags of `a + b` is removing those of `a`, then those of `b`. */
  lemma {:induction false} RemoveTagsAppend(s: string, a: seq<string>, b: seq<string>)
    requires forall k :: 0 <= k < |a| ==> a[k] != []
    requires forall k :: 0 <= k < |b| ==> b[k] != []
    ensures forall k :: 0 <= k < |a + b| ==> (a + b)[k] != []
    ensures RemoveTags(s, a + b) == RemoveTags(RemoveTags(s, a), b)
  {
    if b == [] {
      assert a + b == a;
    } else {
      assert (a + b)[..|a + b| - 1] == a + b[..|b| - 1];
      RemoveTagsAppend(s, a, b[..|b| - 1]);
    }
  }

  /** What `_clean_emotion_markers(text)` returns: all canonical tags, then
      all legacy tags, removed by substring replacement; then stripped. */
  function Cleaned(text: string): (r: string)
    ensures |r| <= |text|
  {
    DutchTagsInOrder();
    LegacyTagShapes();
    Strip(RemoveTags(RemoveTags(text, DutchTags), LegacyEmotions))
  }

  /** One cleaning loop: `text = text.replace(tag, '')` for each tag in turn. */
  method RemoveEach(text: string, tags: seq<string>) returns (r: string)
    requires forall k :: 0 <= k < |tags| ==> tags[k] != []
    ensures r == RemoveTags(text, tags)
  {
    r := text;
    for k := 0 to |tags|
      invariant r == RemoveTags(text, tags[..k])
    {
      assert tags[..k + 1][..k] == tags[..k];
      r := Replace(r, tags[k], "");
    }
    assert tags[..|tags|] == tags;
  }

  /** `_clean_emotion_markers`: remove the canonical tags, then the legacy
      tags, then strip. */
  method CleanEmotionMarkers(text: string) returns (r: string)
    ensures r == Cleaned(text)
  {
    DutchTagsInOrder();
    LegacyTagShapes();
    r := RemoveEach(text, DutchTags);
    r := RemoveEach(r, LegacyEmotions);
    r := Strip(r);
  }

  /** One tag on its own, put through the removal of `tags[..n]` (all of
      them bracketed): each removal either leaves it or deletes it, and it
      is gone once its own turn has come. */
  lemma {:induction false} LoneTagRemoved(tags: seq<string>, k: nat, n: nat)
    requires forall j :: 0 <= j < |tags| ==> Bracketed(tags[j], '[', ']')
    requires k < |tags| && n <= |tags|
    ensures forall j :: 0 <= j < n ==> tags[..n][j] != []
    ensures RemoveTags(tags[k], tags[..n]) == tags[k] || RemoveTags(tags[k], tags[..n]) == []
    ensures k < n ==> RemoveTags(tags[k], tags[..n]) == []
  {
    if n > 0 {
      var t := tags[k];
      var prev := RemoveTags(t, tags[..n - 1]);
      assert RemoveTags(t, tags[..n]) == Replace(prev, tags[n - 1], []) by {
        RemoveTagsLast(t, tags, n - 1, n);
      }
      assert (prev == t || prev == []) && (k < n - 1 ==> prev == []) by {
        LoneTagRemoved(tags, k, n - 1);
      }
      TagRemovalStep(t, tags[n - 1], prev);
    }
  }

  /** The last tag of a prefix is removed after all the others. */
  lemma RemoveTagsLast(s: string, tags: seq<string>, m: nat, n: nat)
    requires n == m + 1 && n <= |tags| && forall j :: 0 <= j < |tags| ==> tags[j] != []
    ensures forall j :: 0 <= j < m ==> tags[..m][j] != []
    ensures forall j :: 0 <= j < n ==> tags[..n][j] != []
    ensures RemoveTags(s, tags[..n]) == Replace(RemoveTags(s, tags[..m]), tags[m], [])
  {
    assert tags[..n][..m] == tags[..m];
  }

  /** One removal applied to a lone bracketed tag, or to what is left of
      it: the tag stays or goes, and its own removal makes it go. */
  lemma TagRemovalStep(t: string, pat: string, prev: string)
    requires Bracketed(t, '[', ']') && Bracketed(pat, '[', ']')
    requires prev == t || prev == []
    ensures var r := Replace(prev, pat, []);
      (r == t || r == []) && (prev == [] ==> r == []) && (pat == t ==> r == [])
  {
    if prev == t && Contains(t, pat) {
      BracketedInside(pat, t, '[', ']');
      ReplaceWhole(t, []);
    }
    assert pat == t ==> StartsWith(t, pat) && Contains(t, pat);
  }

  /** Text without `[` holds no tag, so cleaning only strips it. */
  lemma CleanedWithoutBrackets(text: string)
    requires '[' !in text
    ensures Cleaned(text) == Strip(text)
  {
    DutchTagsInOrder();
    LegacyTagShapes();
    forall k | 0 <= k < |DutchTags| ensures !Contains(text, DutchTags[k]) {
      AbsentCharNotContained(text, DutchTags[k], '[');
    }
    forall k | 0 <= k < |LegacyEmotions| ensures !Contains(text, LegacyEmotions[k]) {
      AbsentCharNotContained(text, LegacyEmotions[k], '[');
    }
  }

  /** Tags whose second character is a lower-case letter do not occur in
      text without lower-case letters, so removing them changes nothing. */
  lemma LowercaseTagsAbsent(s: string, tags: seq<string>)
    requires forall i :: 0 <= i < |s| ==> !('a' <= s[i] <= 'z')
    requires forall k :: 0 <= k < |tags| ==> |tags[k]| >= 2 && 'a' <= tags[k][1] <= 'z'
    ensures RemoveTags(s, tags) == s
  {
    forall k | 0 <= k < |tags| ensures !Contains(s, tags[k]) {
      var c := tags[k][1];
      assert c !in s;
      AbsentCharNotContained(s, tags[k], c);
    }
  }

  /** Text without `E`, `T` and `S` holds none of the first three legacy tags. */
  lemma LegacyHeadAbsent(s: string)
    requires 'E' !in s && 'T' !in s && 'S' !in s
    ensures forall k :: 0 <= k < 3 ==> LegacyEmotions[k] != []
    ensures RemoveTags(s, LegacyEmotions[..3]) == s
  {
    var head := LegacyEmotions[..3];
    forall k | 0 <= k < |head| ensures !Contains(s, head[k]) {
      var c := if k == 0 then 'E' else if k == 1 then 'T' else 'S';
      assert c in head[k];
      AbsentCharNotContained(s, head[k], c);
    }
  }

  /** The legacy pass is the first three tags, then `[CALM]`, then
      `[ENTHUSIASTIC]`; text free of `E`, `T` and `S` meets only `[CALM]`. */
  lemma LegacyPassCalmOnly(s: string)
    requires 'E' !in s && 'T' !in s && 'S' !in s
    ensures forall k :: 0 <= k < |LegacyEmotions| ==> LegacyEmotions[k] != []
    ensures RemoveTags(s, LegacyEmotions) == Replace(s, LegacyEmotions[3], [])
  {
    LegacyTagShapes();
    var calm := LegacyEmotions[3];
    LegacyHeadAbsent(s);
    RemoveTagsAppend(s, LegacyEmotions[..3], [calm]);
    assert LegacyEmotions[..3] + [calm] == LegacyEmotions[..4];
    assert RemoveTags(s, LegacyEmotions[..4]) == Replace(s, calm, []);
    assert 'E' !in Replace(s, calm, []) by {
      ReplaceChars(s, calm, [], 'E');
    }
    AbsentCharNotContained(Replace(s, calm, []), LegacyEmotions[4], 'E');
    assert LegacyEmotions[..5] == LegacyEmotions;
  }

  /** `[CALM]` with a copy of itself inserted after its first two characters. */
  function CalmNested(): string {
    LegacyEmotions[3][..2] + LegacyEmotions[3] + LegacyEmotions[3][2..]
  }

  lemma CalmNestedSpelled()
    ensures CalmNested() == "[C[CALM]ALM]" && LegacyEmotions[3] == "[CALM]"
  {
  }

  /** The legacy pass on `[C[CALM]ALM]`: only `[CALM]` occurs, and removing
      it joins the rest into a new `[CALM]`. */
  lemma LegacyPassJoins()
    ensures RemoveTags(CalmNested(), LegacyEmotions) == LegacyEmotions[3]
  {
    var calm := LegacyEmotions[3];
    CalmNestedSpelled();
    LegacyPassCalmOnly(CalmNested());
    RemovalRejoins(calm, 2);
  }

  /** The legacy pass on `[CALM]` removes it. */
  lemma LegacyPassRemoves()
    ensures RemoveTags(LegacyEmotions[3], LegacyEmotions) == []
  {
    CalmNestedSpelled();
    LegacyPassCalmOnly(LegacyEmotions[3]);
    ReplaceWhole(LegacyEmotions[3], []);
  }

  /** Cleaning is not idempotent: removing a tag can join its neighbours
      into a new tag, which a second pass then removes. */
  lemma CleaningNotIdempotent()
    ensures Cleaned(CalmNested()) == LegacyEmotions[3]
    ensures Cleaned(LegacyEmotions[3]) == []
  {
    DutchTagsInOrder();
    CalmNestedSpelled();
    LowercaseTagsAbsent(CalmNested(), DutchTags);
    LowercaseTagsAbsent(LegacyEmotions[3], DutchTags);
    LegacyPassJoins();
    LegacyPassRemoves();
    CalmStripped();
  }

  lemma CalmStripped()
    ensures Strip(LegacyEmotions[3]) == LegacyEmotions[3] && Strip([]) == []
  {
    CalmNestedSpelled();
    StripUntrimmed(LegacyEmotions[3]);
  }

  // ---------------------------------------------------------------------
  // Emphasis, pause and prosody shorthand (`_process_emphasis_markers`)
  // ---------------------------------------------------------------------

  const StrongOpen := "<emphasis level=\"strong\">"
  const ModerateOpen := "<emphasis level=\"moderate\">"
  const ReducedOpen := "<emphasis level=\"reduced\">"
  const EmphasisClose := "</emphasis>"
  const SoftOpen := "<prosody volume=\"soft\">"
  const ProsodyClose := "</prosody>"

  /** The phrase-to-`<break>` rewrites, in the order they are applied. */
  const PauseRules: seq<(string, string)> := [
    ("(pauze)", "<break time=\"0.5s\"/>"),
    ("(lange pauze)", "<break time=\"1.0s\"/>"),
    ("(kort pauze)", "<break time=\"0.3s\"/>"),
    ("(korte pauze)", "<break time=\"0.3s\"/>"),
    ("(stilte)", "<break time=\"1.5s\"/>"),
    ("(lange stilte)", "<break time=\"2.0s\"/>")
  ]

  /** The volume, rate and pitch marker rewrites, in the order they are
      applied; every closing marker becomes `</prosody>`. */
  const ProsodyRules: seq<(string, string)> := [
    ("(fluister)", "<prosody volume=\"x-soft\">"),
    ("(/fluister)", ProsodyClose),
    ("(snel)", "<prosody rate=\"fast\">"),
    ("(/snel)", ProsodyClose),
    ("(langzaam)", "<prosody rate=\"slow\">"),
    ("(/langzaam)", ProsodyClose),
    ("(supersnel)", "<prosody rate=\"x-fast\">"),
    ("(/supersnel)", ProsodyClose),
    ("(hoog)", "<prosody pitch=\"high\">"),
    ("(/hoog)", ProsodyClose),
    ("(laag)", "<prosody pitch=\"low\">"),
    ("(/laag)", ProsodyClose),
    ("(superhoog)", "<prosody pitch=\"x-high\">"),
    ("(/superhoog)", ProsodyClose),
    ("(superlaag)", "<prosody pitch=\"x-low\">"),
    ("(/superlaag)", ProsodyClose)
  ]

  /** Python 3's `\w` on `str` patterns is Unicode-aware; the model leaves it
      abstract, fixing only that it agrees with `[A-Za-z0-9_]` on ASCII. */
  predicate IsAsciiWord(c: char) {
    'a' <= c <= 'z' || 'A' <= c <= 'Z' || '0' <= c <= '9' || c == '_'
  }

  type WordClass = w: char -> bool | forall c: char :: c as int < 0x80 ==> (w(c) <==> IsAsciiWord(c))
    witness IsAsciiWord

  predicate IsUpper(c: char) {
    'A' <= c <= 'Z'
  }

  predicate NoUpper(s: string) {
    forall i :: 0 <= i < |s| ==> !IsUpper(s[i])
  }
  /** Not one of the shorthand characters `*`, `_`, `~`, `(`. */
  predicate PlainChar(c: char) {
    c != '*' && c != '_' && c != '~' && c != '('
  }

  /** Text with no shorthand character; capitals are allowed. */
  predicate PlainText(s: string) {
    forall i :: 0 <= i < |s| ==> PlainChar(s[i])
  }

  lemma PlainTextChars(s: string)
    requires PlainText(s)
    ensures '*' !in s && '_' !in s && '~' !in s && '(' !in s
  {
  }

  /** `t` is `open`, at least one other character, and `close`, with neither
      bracket character inside. */
  predicate Bracketed(t: string, open: char, close: char) {
    |t| >= 3 && t[0] == open && t[|t| - 1] == close
    && forall k :: 0 < k < |t| - 1 ==> t[k] != open && t[k] != close
  }

  /** How many leading characters of `s` `[^d]+` can consume. */
  function RunWithout(s: string, d: char): (n: nat)
    ensures n <= |s|
    ensures forall i :: 0 <= i < n ==> s[i] != d
    ensures n < |s| ==> s[n] == d
  {
    if s != [] && s[0] != d then 1 + RunWithout(s[1..], d) else 0
  }

  /** `s` begins with `k` copies of `d`. */
  predicate Delimiter(s: string, d: char, k: nat) {
    k <= |s| && forall i :: 0 <= i < k ==> s[i] == d
  }

  /** If `d{k}([^d]+)d{k}` matches at the start of `s`, the group and the
      text after the match. `[^d]+` can only stop at a `d`, so the longest
      run is the only candidate. */
  function SpanAt(s: string, d: char, k: nat): (r: Option<(string, string)>)
    ensures r.Some? ==> r.value.0 != [] && |r.value.1| < |s|
  {
    if !Delimiter(s, d, k) then None
    else
      var n := RunWithout(s[k..], d);
      if n >= 1 && Delimiter(s[k + n..], d, k) then Some((s[k..k + n], s[2 * k + n..])) else None
  }

  /** `re.sub(r'D{k}([^D]+)D{k}', open + r'\1' + close, s)`: scan left to
      right, rewrite each match, resume after it. */
  function RewriteSpans(s: string, d: char, k: nat, open: string, close: string): (r: string)
    requires k >= 1
    ensures d !in s ==> r == s
    decreases |s|
  {
    if s == [] then []
    else
      match SpanAt(s, d, k)
      case Some((group, rest)) => open + group + close + RewriteSpans(rest, d, k, open, close)
      case None => [s[0]] + RewriteSpans(s[1..], d, k, open, close)
  }

  /** How many leading characters of `s` are `[A-Z]`. */
  function UpperRun(s: string): (n: nat)
    ensures n <= |s|
    ensures forall i :: 0 <= i < n ==> IsUpper(s[i])
    ensures n < |s| ==> !IsUpper(s[n])
  {
    if s != [] && IsUpper(s[0]) then 1 + UpperRun(s[1..]) else 0
  }

  /** `re.sub(r'\b([A-Z]{2,})\b', strong, s)` on the rest `s` of the text;
      `prevWord` says whether the character before `s` is a word character.
      A match needs a boundary before it, the longest run of capitals (a
      shorter one would end next to a capital, with no boundary), and a
      non-word character or the end after it. */
  function RewriteCaps(s: string, prevWord: bool, w: WordClass): (r: string)
    decreases |s|
  {
    if s == [] then []
    else
      var n := UpperRun(s);
      if !prevWord && n >= 2 && (n == |s| || !w(s[n])) then
        StrongOpen + s[..n] + EmphasisClose + RewriteCaps(s[n..], true, w)
      else
        [s[0]] + RewriteCaps(s[1..], w(s[0]), w)
  }

  /** Apply each `(pattern, replacement)` rewrite in turn to the whole text. */
  function Rewrite(s: string, rules: seq<(string, string)>): (r: string)
    requires forall k :: 0 <= k < |rules| ==> rules[k].0 != []
    ensures (forall k :: 0 <= k < |rules| ==> !Contains(s, rules[k].0)) ==> r == s
  {
    if rules == [] then s
    else
      var last := rules[|rules| - 1];
      Replace(Rewrite(s, rules[..|rules| - 1]), last.0, last.1)
  }

  /** Every pause marker is a parenthesised word and no replacement holds `(`. */
  lemma PauseRulesBracketed()
    ensures forall k :: 0 <= k < |PauseRules| ==>
      Bracketed(PauseRules[k].0, '(', ')') && '(' !in PauseRules[k].1
  {
  }

  /** Every prosody marker is a parenthesised word and no replacement holds `(`. */
  lemma ProsodyRulesBracketed()
    ensures forall k :: 0 <= k < |ProsodyRules| ==>
      Bracketed(ProsodyRules[k].0, '(', ')') && '(' !in ProsodyRules[k].1
  {
    OpeningRulesBracketed();
    PitchRulesBracketed();
  }

  lemma OpeningRulesBracketed()
    ensures forall k :: 0 <= k < 8 ==>
      Bracketed(ProsodyRules[k].0, '(', ')') && '(' !in ProsodyRules[k].1
  {
  }

  lemma PitchRulesBracketed()
    ensures forall k :: 8 <= k < |ProsodyRules| ==>
      Bracketed(ProsodyRules[k].0, '(', ')') && '(' !in ProsodyRules[k].1
  {
  }

  /** No marker holds a capital or a span delimiter. */
  predicate PlainMarker(p: string) {
    forall i :: 0 <= i < |p| ==> !IsUpper(p[i]) && p[i] != '*' && p[i] != '_' && p[i] != '~'
  }

  lemma PauseMarkersPlain()
    ensures forall k :: 0 <= k < |PauseRules| ==> PlainMarker(PauseRules[k].0)
  {
  }

  lemma ProsodyMarkersPlain()
    ensures forall k :: 0 <= k < |ProsodyRules| ==> PlainMarker(ProsodyRules[k].0)
  {
    OpeningMarkersPlain();
    PitchMarkersPlain();
  }

  lemma OpeningMarkersPlain()
    ensures forall k :: 0 <= k < 8 ==> PlainMarker(ProsodyRules[k].0)
  {
  }

  lemma PitchMarkersPlain()
    ensures forall k :: 8 <= k < |ProsodyRules| ==> PlainMarker(ProsodyRules[k].0)
  {
  }

  /** A plain marker passes the span passes and the ALL-CAPS pass unchanged. */
  lemma PlainMarkerIdle(p: string, w: WordClass)
    requires PlainMarker(p)
    ensures RewriteCaps(SpanPasses(p), false, w) == p
  {
    assert NoUpper(p) && '*' !in p && '_' !in p && '~' !in p;
    SpanPassesIdle(p);
    NoUpperNoCaps(p, w);
    CapsUntouched(p, w);
  }

  /** No two pause markers are the same. */
  lemma PauseMarkersDistinct()
    ensures forall i, j :: 0 <= i < j < |PauseRules| ==> PauseRules[i].0 != PauseRules[j].0
  {
  }

  /** No two prosody markers are the same. */
  lemma ProsodyMarkersDistinct()
    ensures forall i, j :: 0 <= i < j < |ProsodyRules| ==> ProsodyRules[i].0 != ProsodyRules[j].0
  {
  }

  /** No pause marker is a prosody marker. */
  lemma MarkerTablesDisjoint()
    ensures forall i, j :: 0 <= i < |PauseRules| && 0 <= j < |ProsodyRules| ==> PauseRules[i].0 != ProsodyRules[j].0
  {
  }

  /** Every marker is non-empty, as `str.replace` needs here. */
  lemma MarkersNonEmpty()
    ensures forall k :: 0 <= k < |PauseRules| ==> PauseRules[k].0 != []
    ensures forall k :: 0 <= k < |ProsodyRules| ==> ProsodyRules[k].0 != []
  {
    PauseRulesBracketed();
    ProsodyRulesBracketed();
  }

  /** The four delimited-span passes, strong before moderate emphasis,
      then reduced emphasis and soft volume. */
  function SpanPasses(text: string): string
  {
    var strong := RewriteSpans(text, '*', 2, StrongOpen, EmphasisClose);
    var moderate := RewriteSpans(strong, '*', 1, ModerateOpen, EmphasisClose);
    var reduced := RewriteSpans(moderate, '_', 1, ReducedOpen, EmphasisClose);
    RewriteSpans(reduced, '~', 1, SoftOpen, ProsodyClose)
  }

  /** The pause rewrites, then the prosody marker rewrites. */
  function PhrasePasses(text: string): string
  {
    MarkersNonEmpty();
    Rewrite(Rewrite(text, PauseRules), ProsodyRules)
  }

  /** What `_process_emphasis_markers(text)` returns: the span passes, the
      capitalised-word pass, then the phrase passes. */
  function EmphasisMarkers(text: string, w: WordClass): string
  {
    PhrasePasses(RewriteCaps(SpanPasses(text), false, w))
  }

  /** What `process_text(text)` returns. */
  function Processed(text: string, w: WordClass): string
  {
    EmphasisMarkers(Cleaned(text), w)
  }

  /** `process_text`: clean the emotion tags, then rewrite the shorthand. */
  method ProcessText(text: string, w: WordClass) returns (r: string)
    ensures r == Processed(text, w)
  {
    r := CleanEmotionMarkers(text);
    r := EmphasisMarkers(r, w);
  }

  /** A line with no tag bracket, no shorthand character and, once
      stripped, no word-bounded run of two or more capitals is only
      stripped: "Hallo daar" comes back as it is. */
  lemma ProcessedPlain(text: string, w: WordClass)
    requires '[' !in text && PlainText(text)
    requires !HasCapsWord(Strip(text), w)
    ensures Processed(text, w) == Strip(text)
  {
    CleanedWithoutBrackets(text);
    var r := Strip(text);
    StripKeepsPlain(text);
    PlainTextChars(r);
    PlainTextUnchanged(r, w);
  }

  /** Stripping plain text leaves plain text. */
  lemma StripKeepsPlain(text: string)
    requires PlainText(text)
    ensures PlainText(Strip(text))
  {
    var r := Strip(text);
    forall i | 0 <= i < |r| ensures PlainChar(r[i]) {
      assert r[i] == text[Lead(text) + i];
    }
  }

  /** Empty text stays empty through the shorthand rewrites. */
  lemma EmptyUnchanged(w: WordClass)
    ensures EmphasisMarkers([], w) == []
  {
    NoUpperNoCaps([], w);
    PlainTextUnchanged([], w);
  }

  /** A line that is one canonical emotion tag and nothing else is
      processed to the empty text: the tag only selects settings. */
  lemma EmotionTagAloneVanishes(k: nat, w: WordClass)
    requires k < |DutchEmotions|
    ensures Processed(DutchEmotions[k].0, w) == []
  {
    DutchTagsInOrder();
    LegacyTagShapes();
    LoneTagRemoved(DutchTags, k, |DutchTags|);
    assert DutchTags[..|DutchTags|] == DutchTags;
    assert RemoveTags(DutchEmotions[k].0, DutchTags) == [];
    CalmStripped();
    EmptyUnchanged(w);
  }

  /** A line that is one legacy English tag and nothing else is processed
      to the empty text as well. */
  lemma LegacyTagAloneVanishes(k: nat, w: WordClass)
    requires k < |LegacyEmotions|
    ensures Processed(LegacyEmotions[k], w) == []
  {
    DutchTagsInOrder();
    LegacyTagShapes();
    var t := LegacyEmotions[k];
    LowercaseTagsAbsent(t, DutchTags);
    LoneTagRemoved(LegacyEmotions, k, |LegacyEmotions|);
    assert LegacyEmotions[..|LegacyEmotions|] == LegacyEmotions;
    CalmStripped();
    EmptyUnchanged(w);
  }

  // ----- capitalised words -----

  /** `s[i..j]` is a run of two or more capitals with a word boundary on
      both sides: what `\b[A-Z]{2,}\b` matches. */
  ghost predicate CapsWordAt(s: string, i: int, j: int, w: WordClass) {
    0 <= i && i + 2 <= j <= |s|
    && (forall k :: i <= k < j ==> IsUpper(s[k]))
    && (i == 0 || !w(s[i - 1]))
    && (j == |s| || !w(s[j]))
  }

  ghost predicate HasCapsWord(s: string, w: WordClass) {
    exists i, j :: CapsWordAt(s, i, j, w)
  }

  /** Without a bounded capital run from `p` on, the scan copies `s[p..]`. */
  lemma {:induction false} CapsUntouchedFrom(s: string, p: nat, w: WordClass)
    requires p <= |s|
    requires forall i, j :: p <= i ==> !CapsWordAt(s, i, j, w)
    ensures RewriteCaps(s[p..], p > 0 && w(s[p - 1]), w) == s[p..]
    decreases |s| - p
  {
    if p < |s| {
      var t := s[p..];
      var n := UpperRun(t);
      forall k | p <= k < p + n ensures IsUpper(s[k]) {
        assert s[k] == t[k - p];
      }
      assert p + n < |s| ==> s[p + n] == t[n];
      assert !CapsWordAt(s, p, p + n, w);
      assert t[1..] == s[p + 1..];
      CapsUntouchedFrom(s, p + 1, w);
    }
  }

  /** Text with no bounded capital run is left as it is by the ALL-CAPS pass. */
  lemma CapsUntouched(s: string, w: WordClass)
    requires !HasCapsWord(s, w)
    ensures RewriteCaps(s, false, w) == s
  {
    CapsUntouchedFrom(s, 0, w);
  }

  /** A run of capitals followed by the end or by a non-capital is
      consumed whole. */
  lemma {:induction false} UpperRunUntil(x: string, c: string)
    requires forall i :: 0 <= i < |x| ==> IsUpper(x[i])
    requires c == [] || !IsUpper(c[0])
    ensures UpperRun(x + c) == |x|
  {
    if x != [] {
      assert (x + c)[1..] == x[1..] + c;
      UpperRunUntil(x[1..], c);
    } else {
      assert x + c == c;
    }
  }

  /** Text with no bounded capital run and a non-word last character is
      copied by the ALL-CAPS scan, which then goes on past it as if at the
      start of the text. */
  lemma {:induction false} CapsPrefixCopied(a: string, t: string, p: nat, w: WordClass)
    requires p <= |a|
    requires a == [] || !w(a[|a| - 1])
    requires !HasCapsWord(a, w)
    ensures RewriteCaps((a + t)[p..], p > 0 && w((a + t)[p - 1]), w) == a[p..] + RewriteCaps(t, false, w)
    decreases |a| - p
  {
    var s := a + t;
    if p == |a| {
      assert s[p..] == t;
      assert a[p..] == [];
      if p > 0 {
        assert s[p - 1] == a[|a| - 1];
      }
    } else {
      CapsPrefixStep(a, t, p, w);
      assert s[p] == a[p];
      CapsPrefixCopied(a, t, p + 1, w);
      ConsRegroup(a, p, RewriteCaps(t, false, w));
    }
  }

  /** `a[p..]` is its first character followed by the rest. */
  lemma ConsRegroup(a: string, p: nat, r: string)
    requires p < |a|
    ensures [a[p]] + (a[p + 1..] + r) == a[p..] + r
  {
    assert a[p..] == [a[p]] + a[p + 1..];
  }

  /** Text with no bounded capital run and a non-word last character is
      copied by the ALL-CAPS scan. */
  lemma CapsPrefix(a: string, t: string, w: WordClass)
    requires a == [] || !w(a[|a| - 1])
    requires !HasCapsWord(a, w)
    ensures RewriteCaps(a + t, false, w) == a + RewriteCaps(t, false, w)
  {
    CapsPrefixCopied(a, t, 0, w);
    assert (a + t)[0..] == a + t;
    assert a[0..] == a;
  }

  /** One step of `CapsPrefixCopied`: inside `a` no match starts, so the
      scan copies one character. */
  lemma CapsPrefixStep(a: string, t: string, p: nat, w: WordClass)
    requires p < |a|
    requires !w(a[|a| - 1])
    requires !HasCapsWord(a, w)
    ensures RewriteCaps((a + t)[p..], p > 0 && w((a + t)[p - 1]), w)
      == [a[p]] + RewriteCaps((a + t)[p + 1..], w(a[p]), w)
  {
    var s := a + t;
    var u := s[p..];
    var n := UpperRun(u);
    var last := |a| - 1;
    assert u[last - p] == a[last];
    assert !IsUpper(a[last]);
    assert p + n < |a|;
    forall k | p <= k < p + n ensures IsUpper(a[k]) {
      assert a[k] == u[k - p];
    }
    assert u[n] == a[p + n];
    assert p > 0 ==> s[p - 1] == a[p - 1];
    assert !CapsWordAt(a, p, p + n, w);
    assert u[1..] == s[p + 1..];
    assert u[0] == a[p];
  }

  /** A word of two or more capitals becomes strong emphasis wherever it
      stands, provided the text around it holds no bounded capital run of
      its own and meets it with non-word characters (or the ends): in
      "de NOS zegt" only "NOS" is wrapped. */
  lemma CapsWordStrong(a: string, x: string, c: string, w: WordClass)
    requires |x| >= 2 && forall i :: 0 <= i < |x| ==> IsUpper(x[i])
    requires !HasCapsWord(a, w) && !HasCapsWord(c, w)
    requires a == [] || !w(a[|a| - 1])
    requires c == [] || !w(c[0])
    ensures RewriteCaps(a + x + c, false, w) == a + StrongOpen + x + EmphasisClose + c
  {
    CapsPrefix(a, x + c, w);
    CapsRunAtFront(x, c, w);
    ConcatRegroup(a, x, c, StrongOpen, EmphasisClose, RewriteCaps(a + (x + c), false, w));
  }

  /** `r`, computed for `a + (x + c)`, is the same for `a + x + c`, and its
      value regroups. */
  lemma ConcatRegroup(a: string, x: string, c: string, o: string, e: string, r: string)
    requires r == a + (o + x + e + c)
    ensures a + (x + c) == a + x + c
    ensures r == a + o + x + e + c
  {
  }

  /** A capital run at the start, followed by a non-word character or the
      end, is wrapped, and the rest is copied. */
  lemma CapsRunAtFront(x: string, c: string, w: WordClass)
    requires |x| >= 2 && forall i :: 0 <= i < |x| ==> IsUpper(x[i])
    requires !HasCapsWord(c, w)
    requires c == [] || !w(c[0])
    ensures RewriteCaps(x + c, false, w) == StrongOpen + x + EmphasisClose + c
  {
    assert c != [] ==> !IsUpper(c[0]);
    UpperRunUntil(x, c);
    CapsStep(x + c, w);
    assert (x + c)[..|x|] == x;
    assert (x + c)[|x|..] == c;
    CapsAfterWord(c, w);
  }

  /** One step of the ALL-CAPS scan at a run that a boundary closes. */
  lemma CapsStep(s: string, w: WordClass)
    requires UpperRun(s) >= 2 && (UpperRun(s) == |s| || !w(s[UpperRun(s)]))
    ensures RewriteCaps(s, false, w)
      == StrongOpen + s[..UpperRun(s)] + EmphasisClose + RewriteCaps(s[UpperRun(s)..], true, w)
  {
  }

  /** After a word, text that starts with a non-word character and has no
      bounded capital run is copied. */
  lemma CapsAfterWord(c: string, w: WordClass)
    requires !HasCapsWord(c, w)
    requires c == [] || !w(c[0])
    ensures RewriteCaps(c, true, w) == c
  {
    CapsUntouched(c, w);
    if c != [] {
      assert !IsUpper(c[0]);
      assert UpperRun(c) == 0;
    }
  }

  /** Text without capitals cannot hold a capital run. */
  lemma NoUpperNoCaps(s: string, w: WordClass)
    requires NoUpper(s)
    ensures !HasCapsWord(s, w)
  {
    forall i, j ensures !CapsWordAt(s, i, j, w) {
      if 0 <= i < |s| {
        assert !IsUpper(s[i]);
      }
    }
  }

  /** A capital run in `a + x + c`, with `a` and `c` capital-free and
      ending and starting with non-word characters, is a capital run of `x`. */
  lemma CapsWordInside(a: string, x: string, c: string, w: WordClass, i: int, j: int)
    requires NoUpper(a) && NoUpper(c)
    requires a == [] || !w(a[|a| - 1])
    requires c == [] || !w(c[0])
    requires CapsWordAt(a + x + c, i, j, w)
    ensures CapsWordAt(x, i - |a|, j - |a|, w)
  {
    var s := a + x + c;
    assert IsUpper(s[i]) && IsUpper(s[j - 1]);
    assert i >= |a|;
    assert j <= |a| + |x|;
    forall k | i - |a| <= k < j - |a| ensures IsUpper(x[k]) {
      assert x[k] == s[k + |a|];
    }
    assert i > |a| ==> s[i - 1] == x[i - 1 - |a|];
    assert j < |a| + |x| ==> s[j] == x[j - |a|];
  }

  /** Wrapping text in capital-free markup that ends and starts with non-word
      characters creates no capital run. */
  lemma CapsWrapped(a: string, x: string, c: string, w: WordClass)
    requires NoUpper(a) && NoUpper(c)
    requires a == [] || !w(a[|a| - 1])
    requires c == [] || !w(c[0])
    requires !HasCapsWord(x, w)
    ensures !HasCapsWord(a + x + c, w)
  {
    forall i, j ensures !CapsWordAt(a + x + c, i, j, w) {
      if CapsWordAt(a + x + c, i, j, w) {
        CapsWordInside(a, x, c, w, i, j);
      }
    }
  }

  // ----- delimited spans -----

  /** `k` copies of `d`. */
  function Delims(d: char, k: nat): string
  {
    seq(k, _ => d)
  }

  /** `[^d]+` consumes exactly `x` when `x` is free of `d` and a `d` (or the
      end) follows. */
  lemma {:induction false} RunWithoutUntil(x: string, y: string, d: char)
    requires d !in x && (y == [] || y[0] == d)
    ensures RunWithout(x + y, d) == |x|
  {
    if x != [] {
      assert (x + y)[1..] == x[1..] + y;
      RunWithoutUntil(x[1..], y, d);
    } else {
      assert x + y == y;
    }
  }

  /** The scan copies text free of `d` up to a span `d{k} x d{k}`, with
      `x` non-empty and free of `d`, rewrites that span into
      `open + x + close`, and carries on after it: in `dat is **echt**
      goed` the span is found in the middle of the sentence. */
  lemma {:induction false} SpanRewritten(a: string, x: string, b: string, d: char, k: nat, open: string, close: string)
    requires k >= 1 && x != [] && d !in x && d !in a
    ensures RewriteSpans(a + Delims(d, k) + x + Delims(d, k) + b, d, k, open, close)
      == a + open + x + close + RewriteSpans(b, d, k, open, close)
    decreases |a|
  {
    if a == [] {
      SpanAtFront(x, b, d, k, open, close);
      EmptyFront(a, Delims(d, k), x, Delims(d, k), b);
      EmptyFront(a, open, x, close, RewriteSpans(b, d, k, open, close));
    } else {
      SpanSkip(a, x, b, d, k, open, close);
      SpanRewritten(a[1..], x, b, d, k, open, close);
      HeadRegroup(a, open, x, close, RewriteSpans(b, d, k, open, close));
    }
  }

  /** Before a span, a character other than `d` is copied. */
  lemma SpanSkip(a: string, x: string, b: string, d: char, k: nat, open: string, close: string)
    requires k >= 1 && a != [] && a[0] != d
    ensures RewriteSpans(a + Delims(d, k) + x + Delims(d, k) + b, d, k, open, close)
      == [a[0]] + RewriteSpans(a[1..] + Delims(d, k) + x + Delims(d, k) + b, d, k, open, close)
  {
    var D := Delims(d, k);
    var s := a + D + x + D + b;
    assert s[0] == a[0];
    assert !Delimiter(s, d, k);
    assert s[1..] == a[1..] + D + x + D + b;
  }

  /** An empty first part drops out of a five-part concatenation. */
  lemma EmptyFront(a: string, p: string, x: string, q: string, r: string)
    requires a == []
    ensures a + p + x + q + r == p + x + q + r
  {
  }

  /** `a` is its first character followed by the rest. */
  lemma HeadRegroup(a: string, o: string, x: string, c: string, r: string)
    requires a != []
    ensures [a[0]] + (a[1..] + o + x + c + r) == a + o + x + c + r
  {
    assert a == [a[0]] + a[1..];
  }

  /** A span at the very start is rewritten in one step. */
  lemma SpanAtFront(x: string, b: string, d: char, k: nat, open: string, close: string)
    requires k >= 1 && x != [] && d !in x
    ensures RewriteSpans(Delims(d, k) + x + Delims(d, k) + b, d, k, open, close)
      == open + x + close + RewriteSpans(b, d, k, open, close)
  {
    SpanFound(x, b, d, k);
    SpanStep(Delims(d, k) + x + Delims(d, k) + b, d, k, open, close, x, b);
  }

  /** The scan rewrites a span found at the start and resumes after it. */
  lemma SpanStep(s: string, d: char, k: nat, open: string, close: string, group: string, rest: string)
    requires k >= 1 && SpanAt(s, d, k) == Some((group, rest))
    ensures RewriteSpans(s, d, k, open, close) == open + group + close + RewriteSpans(rest, d, k, open, close)
  {
  }

  /** `d{k}([^d]+)d{k}` matches at the start of `d{k} x d{k} b`; its group
      is `x` and `b` follows it. */
  lemma SpanFound(x: string, b: string, d: char, k: nat)
    requires k >= 1 && x != [] && d !in x
    ensures SpanAt(Delims(d, k) + x + Delims(d, k) + b, d, k) == Some((x, b))
  {
    var D := Delims(d, k);
    var s := D + x + D + b;
    DelimsLead(d, k, x + D + b);
    DelimsLead(d, k, b);
    SpanParts(x, b, d, k);
    RunWithoutUntil(x, D + b, d);
  }

  /** Where the pieces sit in `d{k} x d{k} b`. */
  lemma SpanParts(x: string, b: string, d: char, k: nat)
    ensures Delims(d, k) + x + Delims(d, k) + b == Delims(d, k) + (x + Delims(d, k) + b)
    ensures (Delims(d, k) + x + Delims(d, k) + b)[k..] == x + (Delims(d, k) + b)
    ensures (Delims(d, k) + x + Delims(d, k) + b)[k + |x|..] == Delims(d, k) + b
    ensures (Delims(d, k) + x + Delims(d, k) + b)[k..k + |x|] == x
    ensures (Delims(d, k) + x + Delims(d, k) + b)[2 * k + |x|..] == b
  {
    var D := Delims(d, k);
    var s := D + x + D + b;
    assert s[k..] == x + (D + b);
    assert s[k + |x|..] == D + b;
    assert s[k..k + |x|] == x;
    assert s[2 * k + |x|..] == b;
  }

  /** `d{k} t` begins with `k` copies of `d`. */
  lemma DelimsLead(d: char, k: nat, t: string)
    ensures Delimiter(Delims(d, k) + t, d, k)
  {
    forall i | 0 <= i < k ensures (Delims(d, k) + t)[i] == d {
      assert (Delims(d, k) + t)[i] == Delims(d, k)[i];
    }
  }

  /** With no two `d` side by side, the doubled-delimiter pass changes nothing. */
  lemma {:induction false} SpansUndoubled(s: string, d: char, open: string, close: string)
    requires forall i :: 0 <= i < |s| - 1 ==> !(s[i] == d && s[i + 1] == d)
    ensures RewriteSpans(s, d, 2, open, close) == s
    decreases |s|
  {
    if s != [] {
      assert !Delimiter(s, d, 2) by {
        if |s| >= 2 { assert !(s[0] == d && s[1] == d); }
      }
      assert SpanAt(s, d, 2) == None;
      SpansUndoubled(s[1..], d, open, close);
    }
  }

  // ----- the whole chain -----

  /** Text free of the span delimiters passes the span passes unchanged. */
  lemma SpanPassesIdle(t: string)
    requires '*' !in t && '_' !in t && '~' !in t
    ensures SpanPasses(t) == t
  {
  }

  /** Text free of `(` passes the phrase passes unchanged. */
  lemma PhrasePassesIdle(t: string)
    requires '(' !in t
    ensures PhrasePasses(t) == t
  {
    MarkersNonEmpty(); PauseRulesBracketed(); ProsodyRulesBracketed();
    forall k | 0 <= k < |PauseRules| ensures !Contains(t, PauseRules[k].0) {
      AbsentCharNotContained(t, PauseRules[k].0, '(');
    }
    forall k | 0 <= k < |ProsodyRules| ensures !Contains(t, ProsodyRules[k].0) {
      AbsentCharNotContained(t, ProsodyRules[k].0, '(');
    }
  }

  /** Text with none of `*`, `_`, `~`, `(` and no bounded run of two or more
      capitals leaves `_process_emphasis_markers` unchanged. */
  lemma PlainTextUnchanged(text: string, w: WordClass)
    requires '*' !in text && '_' !in text && '~' !in text && '(' !in text
    requires !HasCapsWord(text, w)
    ensures EmphasisMarkers(text, w) == text
  {
    SpanPassesIdle(text);
    CapsUntouched(text, w);
    PhrasePassesIdle(text);
  }

  /** A generated SSML tag: `<`…`>` with no capital or shorthand character. */
  predicate MarkupTag(m: string) {
    |m| >= 2 && m[0] == '<' && m[|m| - 1] == '>'
    && forall i :: 0 <= i < |m| ==> PlainChar(m[i]) && !IsUpper(m[i])
  }

  lemma MarkupTagChars(m: string)
    requires MarkupTag(m)
    ensures PlainText(m) && NoUpper(m)
  {
  }

  lemma MarkupTags()
    ensures MarkupTag(StrongOpen) && MarkupTag(ModerateOpen) && MarkupTag(ReducedOpen)
    ensures MarkupTag(SoftOpen) && MarkupTag(EmphasisClose) && MarkupTag(ProsodyClose)
  {
    EmphasisTags();
    ProsodyTags();
  }

  lemma EmphasisTags()
    ensures MarkupTag(StrongOpen) && MarkupTag(ModerateOpen) && MarkupTag(ReducedOpen) && MarkupTag(EmphasisClose)
  {
    LevelTags();
  }

  lemma LevelTags()
    ensures MarkupTag(StrongOpen) && MarkupTag(ModerateOpen)
  {
  }

  lemma ProsodyTags()
    ensures MarkupTag(SoftOpen) && MarkupTag(ProsodyClose)
  {
  }

  /** Markup wrapped round plain text passes the rest of the chain intact. */
  lemma WrappedPlainUnchanged(open: string, x: string, close: string, w: WordClass)
    requires MarkupTag(open) && MarkupTag(close)
    requires '*' !in x && '_' !in x && '~' !in x && '(' !in x && !HasCapsWord(x, w)
    ensures EmphasisMarkers(open + x + close, w) == open + x + close
  {
    assert !w('>') && !w('<');
    MarkupTagChars(open); PlainTextChars(open);
    MarkupTagChars(close); PlainTextChars(close);
    CapsWrapped(open, x, close, w);
    PlainTextUnchanged(open + x + close, w);
  }

  /** A bounded capital run cannot reach across text without capitals, so
      joining two texts free of such runs with capital-free text creates
      none. */
  lemma CapsAcross(p: string, m: string, q: string, w: WordClass)
    requires m != [] && NoUpper(m)
    requires !HasCapsWord(p, w) && !HasCapsWord(q, w)
    ensures !HasCapsWord(p + m + q, w)
  {
    forall i, j ensures !CapsWordAt(p + m + q, i, j, w) {
      if CapsWordAt(p + m + q, i, j, w) {
        CapsWordSides(p, m, q, w, i, j);
      }
    }
  }

  /** A bounded capital run in `p + m + q`, with `m` non-empty and free of
      capitals, is a bounded capital run of `p` or of `q`. */
  lemma CapsWordSides(p: string, m: string, q: string, w: WordClass, i: int, j: int)
    requires m != [] && NoUpper(m)
    requires CapsWordAt(p + m + q, i, j, w)
    ensures (j <= |p| && CapsWordAt(p, i, j, w))
      || (i >= |p| + |m| && CapsWordAt(q, i - |p| - |m|, j - |p| - |m|, w))
  {
    var s := p + m + q;
    var o := |p| + |m|;
    assert IsUpper(s[i]);
    assert !IsUpper(s[|p|]);
    assert j <= |p| || i >= o;
    if j <= |p| {
      forall k | i <= k < j ensures IsUpper(p[k]) {
        assert p[k] == s[k];
      }
      assert i > 0 ==> p[i - 1] == s[i - 1];
      assert j < |p| ==> p[j] == s[j];
    } else {
      forall k | i - o <= k < j - o ensures IsUpper(q[k]) {
        assert q[k] == s[k + o];
      }
      assert i > o ==> q[i - o - 1] == s[i - 1];
      assert j < |s| ==> q[j - o] == s[j];
    }
  }

  /** Once the span passes have produced `a + open + x + close + b`, the
      rest of the chain leaves it as it is. */
  lemma SpanThenIdle(text: string, a: string, open: string, x: string, close: string, b: string, w: WordClass)
    requires MarkupTag(open) && MarkupTag(close)
    requires PlainText(a) && PlainText(x) && PlainText(b)
    requires !HasCapsWord(a, w) && !HasCapsWord(x, w) && !HasCapsWord(b, w)
    requires SpanPasses(text) == a + open + x + close + b
    ensures EmphasisMarkers(text, w) == a + open + x + close + b
  {
    var t := a + open + x + close + b;
    MarkedCapsFree(a, open, x, close, b, w);
    CapsUntouched(t, w);
    PlainTextChars(a);
    PlainTextChars(x);
    PlainTextChars(b);
    MarkupTagChars(open); PlainTextChars(open);
    MarkupTagChars(close); PlainTextChars(close);
    PhrasePassesIdle(t);
  }

  /** Markup without capitals between texts free of bounded capital runs
      creates none. */
  lemma MarkedCapsFree(a: string, open: string, x: string, close: string, b: string, w: WordClass)
    requires open != [] && NoUpper(open) && close != [] && NoUpper(close)
    requires !HasCapsWord(a, w) && !HasCapsWord(x, w) && !HasCapsWord(b, w)
    ensures !HasCapsWord(a + open + x + close + b, w)
  {
    CapsAcross(x, close, b, w);
    CapsAcross(a, open, x + close + b, w);
    assert a + open + (x + close + b) == a + open + x + close + b;
  }

  /** `**x**` inside a sentence becomes strong emphasis (and never
      moderate); the text around it is kept. */
  lemma StrongSpan(a: string, x: string, b: string, w: WordClass)
    requires PlainText(a) && PlainText(b) && x != [] && PlainText(x)
    requires !HasCapsWord(a, w) && !HasCapsWord(x, w) && !HasCapsWord(b, w)
    ensures EmphasisMarkers(a + "**" + x + "**" + b, w) == a + StrongOpen + x + EmphasisClose + b
  {
    MarkupTags();
    PlainTextChars(a); PlainTextChars(x); PlainTextChars(b);
    MarkupTagChars(StrongOpen); PlainTextChars(StrongOpen);
    MarkupTagChars(EmphasisClose); PlainTextChars(EmphasisClose);
    var s := a + "**" + x + "**" + b;
    var t := a + StrongOpen + x + EmphasisClose + b;
    assert Delims('*', 2) == "**";
    SpanRewritten(a, x, b, '*', 2, StrongOpen, EmphasisClose);
    assert '*' !in t && '_' !in t && '~' !in t;
    SpanThenIdle(s, a, StrongOpen, x, EmphasisClose, b, w);
  }

  /** `*x*` inside a sentence survives the strong pass and becomes moderate
      emphasis; the text around it is kept. */
  lemma ModerateSpan(a: string, x: string, b: string, w: WordClass)
    requires PlainText(a) && PlainText(b) && x != [] && PlainText(x)
    requires !HasCapsWord(a, w) && !HasCapsWord(x, w) && !HasCapsWord(b, w)
    ensures EmphasisMarkers(a + "*" + x + "*" + b, w) == a + ModerateOpen + x + EmphasisClose + b
  {
    MarkupTags();
    PlainTextChars(a); PlainTextChars(x); PlainTextChars(b);
    MarkupTagChars(ModerateOpen); PlainTextChars(ModerateOpen);
    MarkupTagChars(EmphasisClose); PlainTextChars(EmphasisClose);
    var s := a + "*" + x + "*" + b;
    var t := a + ModerateOpen + x + EmphasisClose + b;
    var e := |a| + 1 + |x|;
    forall i | 0 <= i < |s| - 1 ensures !(s[i] == '*' && s[i + 1] == '*') {
      if i < |a| {
        assert s[i] == a[i];
      } else if i == |a| {
        assert s[i + 1] == x[0];
      } else if i < e {
        assert s[i] == x[i - |a| - 1];
      } else if i == e {
        assert s[i + 1] == b[0];
      } else {
        assert s[i] == b[i - e - 1];
      }
    }
    SpansUndoubled(s, '*', StrongOpen, EmphasisClose);
    assert Delims('*', 1) == "*";
    SpanRewritten(a, x, b, '*', 1, ModerateOpen, EmphasisClose);
    assert '_' !in t && '~' !in t;
    SpanThenIdle(s, a, ModerateOpen, x, EmphasisClose, b, w);
  }

  /** `_x_` inside a sentence becomes reduced emphasis; the text around it
      is kept. */
  lemma ReducedSpan(a: string, x: string, b: string, w: WordClass)
    requires PlainText(a) && PlainText(b) && x != [] && PlainText(x)
    requires !HasCapsWord(a, w) && !HasCapsWord(x, w) && !HasCapsWord(b, w)
    ensures EmphasisMarkers(a + "_" + x + "_" + b, w) == a + ReducedOpen + x + EmphasisClose + b
  {
    MarkupTags();
    PlainTextChars(a); PlainTextChars(x); PlainTextChars(b);
    MarkupTagChars(ReducedOpen); PlainTextChars(ReducedOpen);
    MarkupTagChars(EmphasisClose); PlainTextChars(EmphasisClose);
    var s := a + "_" + x + "_" + b;
    var t := a + ReducedOpen + x + EmphasisClose + b;
    assert '*' !in s;
    assert Delims('_', 1) == "_";
    SpanRewritten(a, x, b, '_', 1, ReducedOpen, EmphasisClose);
    assert '~' !in t;
    SpanThenIdle(s, a, ReducedOpen, x, EmphasisClose, b, w);
  }

  /** `~x~` inside a sentence becomes soft-volume prosody; the text around
      it is kept. */
  lemma SoftSpan(a: string, x: string, b: string, w: WordClass)
    requires PlainText(a) && PlainText(b) && x != [] && PlainText(x)
    requires !HasCapsWord(a, w) && !HasCapsWord(x, w) && !HasCapsWord(b, w)
    ensures EmphasisMarkers(a + "~" + x + "~" + b, w) == a + SoftOpen + x + ProsodyClose + b
  {
    MarkupTags();
    PlainTextChars(a); PlainTextChars(x); PlainTextChars(b);
    MarkupTagChars(SoftOpen); PlainTextChars(SoftOpen);
    MarkupTagChars(ProsodyClose); PlainTextChars(ProsodyClose);
    var s := a + "~" + x + "~" + b;
    assert '*' !in s && '_' !in s;
    assert Delims('~', 1) == "~";
    SpanRewritten(a, x, b, '~', 1, SoftOpen, ProsodyClose);
    SpanThenIdle(s, a, SoftOpen, x, ProsodyClose, b, w);
  }

  /** A word of two or more capitals inside a sentence becomes strong
      emphasis; the text around it is kept. */
  lemma CapitalWord(a: string, x: string, c: string, w: WordClass)
    requires |x| >= 2 && forall i :: 0 <= i < |x| ==> IsUpper(x[i])
    requires PlainText(a) && PlainText(c) && !HasCapsWord(a, w) && !HasCapsWord(c, w)
    requires a == [] || !w(a[|a| - 1])
    requires c == [] || !w(c[0])
    ensures EmphasisMarkers(a + x + c, w) == a + StrongOpen + x + EmphasisClose + c
  {
    MarkupTags();
    PlainTextChars(a); PlainTextChars(c);
    MarkupTagChars(StrongOpen); PlainTextChars(StrongOpen);
    MarkupTagChars(EmphasisClose); PlainTextChars(EmphasisClose);
    assert PlainText(x);
    PlainTextChars(x);
    SpanPassesIdle(a + x + c);
    CapsWordStrong(a, x, c, w);
    PhrasePassesIdle(a + StrongOpen + x + EmphasisClose + c);
  }

  // ----- pause and prosody markers -----

  /** A bracketed token occurs inside another only if the two are equal. */
  lemma BracketedInside(a: string, b: string, open: char, close: char)
    requires open != close && Bracketed(a, open, close) && Bracketed(b, open, close)
    requires Contains(b, a)
    ensures a == b
  {
    ContainsIffOccurs(b, a);
    var i :| OccursAt(b, a, i);
    assert b[i] == a[0] == open;
    assert i == 0;
    var e := |a| - 1;
    assert b[e] == a[e] == close;
    assert e == |b| - 1;
    assert b == b[0..|a|];
  }

  /** A bracketed token does not occur in a different bracketed token. */
  lemma DistinctBracketedAbsent(a: string, b: string, open: char, close: char)
    requires open != close && Bracketed(a, open, close) && Bracketed(b, open, close)
    requires a != b
    ensures !Contains(b, a)
  {
    if Contains(b, a) {
      BracketedInside(a, b, open, close);
    }
  }

  /** Replacing the whole of `p` by `r` gives `r`. */
  lemma ReplaceWhole(p: string, r: string)
    requires p != []
    ensures Replace(p, p, r) == r
  {
    assert StartsWith(p, p);
    assert p[|p|..] == [];
  }

  /** In `a + m + b`, with `m` bracketed by `(` and `)` and no `(` in `a`
      or `b`, every bracketed token that occurs is `m` itself. */
  lemma MarkerOnlyAt(a: string, m: string, b: string, p: string)
    requires Bracketed(m, '(', ')') && Bracketed(p, '(', ')')
    requires '(' !in a && '(' !in b
    requires Contains(a + m + b, p)
    ensures p == m
  {
    var s := a + m + b;
    OpenOnlyAtMarker(a, m, b);
    CloseEndsMarker(a, m, b);
    ContainsIffOccurs(s, p);
    var i :| OccursAt(s, p, i);
    assert s[i..i + |p|] == p;
    assert s[i] == p[0] == '(';
    assert i == |a|;
    forall j | |a| < j < |a| + |p| - 1 ensures s[j] != ')' {
      assert s[j] == p[j - |a|];
    }
    assert s[|a| + |p| - 1] == p[|p| - 1] == ')';
    assert |p| == |m|;
  }

  /** In `a + m + b` the only `(` is the one that opens `m`. */
  lemma OpenOnlyAtMarker(a: string, m: string, b: string)
    requires Bracketed(m, '(', ')') && '(' !in a && '(' !in b
    ensures forall j :: 0 <= j < |a + m + b| && j != |a| ==> (a + m + b)[j] != '('
  {
    var s := a + m + b;
    forall j | 0 <= j < |s| && j != |a| ensures s[j] != '(' {
      if j < |a| {
        assert s[j] == a[j];
      } else if j < |a| + |m| {
        assert s[j] == m[j - |a|];
      } else {
        assert s[j] == b[j - |a| - |m|];
      }
    }
  }

  /** In `a + m + b` the first `)` after the one `(` closes `m`. */
  lemma CloseEndsMarker(a: string, m: string, b: string)
    requires Bracketed(m, '(', ')')
    ensures var s := a + m + b;
      s[|a|..|a| + |m|] == m && s[|a| + |m| - 1] == ')'
      && forall j :: |a| < j < |a| + |m| - 1 ==> s[j] != ')'
  {
    var s := a + m + b;
    forall j | |a| < j < |a| + |m| - 1 ensures s[j] != ')' {
      assert s[j] == m[j - |a|];
    }
    assert s[|a|..|a| + |m|] == m;
  }

  /** A bracketed token other than `m` does not occur in `a + m + b`. */
  lemma DistinctMarkerAbsent(a: string, m: string, b: string, p: string)
    requires Bracketed(m, '(', ')') && Bracketed(p, '(', ')')
    requires '(' !in a && '(' !in b && p != m
    ensures !Contains(a + m + b, p)
  {
    if Contains(a + m + b, p) {
      MarkerOnlyAt(a, m, b, p);
    }
  }

  /** A table of distinct bracketed markers whose replacements hold no `(`
      rewrites a marker standing between two `(`-free texts into that
      marker's replacement and leaves the texts as they are. */
  lemma {:induction false} MarkerInContext(rules: seq<(string, string)>, k: nat, n: nat, a: string, b: string)
    requires forall j :: 0 <= j < |rules| ==> Bracketed(rules[j].0, '(', ')') && '(' !in rules[j].1
    requires forall i, j :: 0 <= i < j < |rules| ==> rules[i].0 != rules[j].0
    requires '(' !in a && '(' !in b
    requires k < n <= |rules|
    ensures forall j :: 0 <= j < n ==> rules[..n][j].0 != []
    ensures Rewrite(a + rules[k].0 + b, rules[..n]) == a + rules[k].1 + b
  {
    var m, rep := rules[k].0, rules[k].1;
    RewriteLast(a + m + b, rules, n);
    if k == n - 1 {
      EarlierMarkersAbsent(rules, k, a, b);
      ReplaceAfterFreshHead(a, b, m, rep);
      AbsentCharNotContained(b, m, '(');
    } else {
      MarkerInContext(rules, k, n - 1, a, b);
      AbsentCharNotContained(a + rep + b, rules[n - 1].0, '(');
    }
  }

  /** The last rule of a prefix is applied after all the others. */
  lemma RewriteLast(s: string, rules: seq<(string, string)>, n: nat)
    requires 0 < n <= |rules| && forall j :: 0 <= j < |rules| ==> rules[j].0 != []
    ensures forall j :: 0 <= j < n ==> rules[..n][j].0 != []
    ensures Rewrite(s, rules[..n]) == Replace(Rewrite(s, rules[..n - 1]), rules[n - 1].0, rules[n - 1].1)
  {
    assert rules[..n][..n - 1] == rules[..n - 1];
  }

  /** No earlier marker occurs around a later, distinct bracketed marker. */
  lemma EarlierMarkersAbsent(rules: seq<(string, string)>, k: nat, a: string, b: string)
    requires forall j :: 0 <= j < |rules| ==> Bracketed(rules[j].0, '(', ')')
    requires forall i, j :: 0 <= i < j < |rules| ==> rules[i].0 != rules[j].0
    requires '(' !in a && '(' !in b
    requires k < |rules|
    ensures forall j :: 0 <= j < k ==> rules[..k][j].0 != []
    ensures Rewrite(a + rules[k].0 + b, rules[..k]) == a + rules[k].0 + b
  {
    forall j | 0 <= j < k ensures !Contains(a + rules[k].0 + b, rules[..k][j].0) {
      DistinctMarkerAbsent(a, rules[k].0, b, rules[j].0);
    }
  }

  /** Text free of `(` holds no prosody marker. */
  lemma ProsodyPassIdle(t: string)
    requires '(' !in t
    ensures Rewrite(t, ProsodyRules) == t
  {
    ProsodyRulesBracketed();
    forall j | 0 <= j < |ProsodyRules| ensures !Contains(t, ProsodyRules[j].0) {
      AbsentCharNotContained(t, ProsodyRules[j].0, '(');
    }
  }

  /** A prosody marker between `(`-free texts meets no pause marker. */
  lemma PausePassIdle(k: nat, a: string, b: string)
    requires k < |ProsodyRules| && '(' !in a && '(' !in b
    ensures forall j :: 0 <= j < |PauseRules| ==> PauseRules[j].0 != []
    ensures Rewrite(a + ProsodyRules[k].0 + b, PauseRules) == a + ProsodyRules[k].0 + b
  {
    PauseRulesBracketed(); ProsodyRulesBracketed(); MarkerTablesDisjoint();
    forall j | 0 <= j < |PauseRules| ensures !Contains(a + ProsodyRules[k].0 + b, PauseRules[j].0) {
      DistinctMarkerAbsent(a, ProsodyRules[k].0, b, PauseRules[j].0);
    }
  }

  /** A plain marker between texts with no shorthand character and no
      bounded capital run gives text with neither. */
  lemma PlainAround(a: string, m: string, b: string, w: WordClass)
    requires PlainText(a) && PlainText(b) && !HasCapsWord(a, w) && !HasCapsWord(b, w)
    requires m != [] && PlainMarker(m)
    ensures var s := a + m + b;
      '*' !in s && '_' !in s && '~' !in s && !HasCapsWord(s, w)
    ensures '(' !in a && '(' !in b
  {
    PlainTextChars(a);
    PlainTextChars(b);
    assert '*' !in m && '_' !in m && '~' !in m && NoUpper(m);
    CapsAcross(a, m, b, w);
  }

  /** Each pause phrase becomes its `<break>` of fixed length wherever it
      stands in a sentence: `(pauze)` 0.5s, `(lange pauze)` 1.0s,
      `(kort pauze)` and `(korte pauze)` 0.3s, `(stilte)` 1.5s,
      `(lange stilte)` 2.0s; the text around it, which may hold capitals
      but no shorthand, is kept. */
  lemma PauseMarkerInText(a: string, k: nat, b: string, w: WordClass)
    requires k < |PauseRules| && PlainText(a) && PlainText(b)
    requires !HasCapsWord(a, w) && !HasCapsWord(b, w)
    ensures EmphasisMarkers(a + PauseRules[k].0 + b, w) == a + PauseRules[k].1 + b
  {
    PauseRulesBracketed(); PauseMarkersPlain(); PauseMarkersDistinct();
    var s := a + PauseRules[k].0 + b;
    PlainAround(a, PauseRules[k].0, b, w);
    SpanPassesIdle(s);
    CapsUntouched(s, w);
    MarkerInContext(PauseRules, k, |PauseRules|, a, b);
    assert PauseRules[..|PauseRules|] == PauseRules;
    ProsodyPassIdle(a + PauseRules[k].1 + b);
  }

  /** Each volume, rate or pitch marker becomes its own fixed `<prosody …>`
      or `</prosody>` tag wherever it stands in a sentence; the text around
      it, which may hold capitals but no shorthand, is kept. No pairing is
      checked. */
  lemma ProsodyMarkerInText(a: string, k: nat, b: string, w: WordClass)
    requires k < |ProsodyRules| && PlainText(a) && PlainText(b)
    requires !HasCapsWord(a, w) && !HasCapsWord(b, w)
    ensures EmphasisMarkers(a + ProsodyRules[k].0 + b, w) == a + ProsodyRules[k].1 + b
  {
    ProsodyRulesBracketed(); ProsodyMarkersPlain(); ProsodyMarkersDistinct();
    var s := a + ProsodyRules[k].0 + b;
    PlainAround(a, ProsodyRules[k].0, b, w);
    SpanPassesIdle(s);
    CapsUntouched(s, w);
    PausePassIdle(k, a, b);
    MarkerInContext(ProsodyRules, k, |ProsodyRules|, a, b);
    assert ProsodyRules[..|ProsodyRules|] == ProsodyRules;
  }

  /** Every closing marker `(/…)` becomes `</prosody>`, whatever it closes. */
  lemma ClosingMarkers()
    ensures forall k :: 0 <= k < |ProsodyRules| && ProsodyRules[k].0[1] == '/' ==>
      ProsodyRules[k].1 == ProsodyClose
  {
  }
}
