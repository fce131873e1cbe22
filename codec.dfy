/** The share-link codec of app/page.tsx: the mount effect that reads the
    query parameters into the form state (lines 34-84) and the part of
    `copyLinkToClipboard` that writes the state back as parameters (lines
    159-184). */
module Codec {
  import opened Optional
  import opened Params
  import opened Signature

  /** The digit character of a slot index. */
  function Digit(i: nat): (c: char)
    requires i < 10
    ensures '0' <= c <= '9'
  {
    ('0' as int + i) as char
  }

  /** The key `social${i}${suffix}`. */
  function SlotKey(i: nat, suffix: string): string
    requires i < 10
  {
    "social" + [Digit(i)] + suffix
  }

  /** A slot key starts with `s`, then holds the digit and the suffix. */
  lemma SlotKeyShape(i: nat, suffix: string)
    requires i < 10
    ensures var k := SlotKey(i, suffix);
            |k| == 7 + |suffix| && k[0] == 's' && k[6] == Digit(i) && k[7..] == suffix
  {
  }

  /** Slot keys name one slot and one suffix. */
  lemma SlotKeyInjective(i: nat, f: string, j: nat, g: string)
    requires i < 10 && j < 10 && SlotKey(i, f) == SlotKey(j, g)
    ensures i == j && f == g
  {
    SlotKeyShape(i, f);
    SlotKeyShape(j, g);
    assert Digit(i) == SlotKey(i, f)[6] == SlotKey(j, g)[6] == Digit(j);
  }

  // ---------------------------------------------------------------------
  // Decoding (app/page.tsx:34-84)
  // ---------------------------------------------------------------------

  /** The slot that the parameters describe for index `i` (lines 53-61):
      `Icon` falls back to the legacy `Url`; `Profile` falls back to `Link`,
      then to `Url`. */
  function DecodedIcon(ps: Params, i: nat): (d: SocialIcon)
    requires i < 10
    ensures d.name == Arg(ps, SlotKey(i, "Name"))
    ensures d.iconUrl == (if Arg(ps, SlotKey(i, "Icon")) != "" then Arg(ps, SlotKey(i, "Icon")) else Arg(ps, SlotKey(i, "Url")))
    ensures d.profileUrl == (if Arg(ps, SlotKey(i, "Profile")) != "" then Arg(ps, SlotKey(i, "Profile"))
                             else if Arg(ps, SlotKey(i, "Link")) != "" then Arg(ps, SlotKey(i, "Link"))
                             else Arg(ps, SlotKey(i, "Url")))
    ensures IsBlankIcon(d) <==> Arg(ps, SlotKey(i, "Name")) == "" && Arg(ps, SlotKey(i, "Icon")) == ""
                                && Arg(ps, SlotKey(i, "Profile")) == "" && Arg(ps, SlotKey(i, "Link")) == ""
                                && Arg(ps, SlotKey(i, "Url")) == ""
  {
    var legacyUrl := Arg(ps, SlotKey(i, "Url"));
    SocialIcon(
      Arg(ps, SlotKey(i, "Name")),
      Or(Arg(ps, SlotKey(i, "Icon")), legacyUrl),
      Or(Or(Arg(ps, SlotKey(i, "Profile")), Arg(ps, SlotKey(i, "Link"))), legacyUrl))
  }

  /** The slot after decoding (lines 63-69): replaced by the decoded one
      when that has a non-empty field, kept otherwise. */
  function MergeSlot(ps: Params, i: nat, cur: SocialIcon): (s: SocialIcon)
    requires i < 10
    ensures s == cur || !IsBlankIcon(s)
  {
    var d := DecodedIcon(ps, i);
    if IsBlankIcon(d) then cur else d
  }

  /** `urlData` after the assignments of lines 36-70: a copy of the current
      state in which each field with a non-empty parameter is overwritten. */
  function Merge(ps: Params, cur: FormData): (u: FormData)
    requires WellFormed(cur)
    ensures WellFormed(u)
  {
    FormData(
      Or(Arg(ps, "name"), cur.name),
      Or(Or(Arg(ps, "title"), Arg(ps, "jobTitle")), cur.title),
      Or(Arg(ps, "email"), cur.email),
      Or(Arg(ps, "phone"), cur.phone),
      Or(Arg(ps, "website"), cur.website),
      Or(Or(Arg(ps, "logo"), Arg(ps, "logoUrl")), cur.logo),
      seq(SlotCount, i requires 0 <= i < SlotCount => MergeSlot(ps, i, cur.socialIcons[i])))
  }

  /** The merged slots, written out. */
  lemma MergedSlots(ps: Params, cur: FormData)
    requires WellFormed(cur)
    ensures var c := cur.socialIcons;
            Merge(ps, cur).socialIcons == [MergeSlot(ps, 0, c[0]), MergeSlot(ps, 1, c[1]), MergeSlot(ps, 2, c[2])]
  {
  }

  /** The state after the mount effect (lines 72-83): the merged record when
      it has content, the current state otherwise. */
  function Decode(ps: Params, cur: FormData): (r: FormData)
    requires WellFormed(cur)
    ensures WellFormed(r)
  {
    var urlData := Merge(ps, cur);
    if HasContent(urlData) then urlData else cur
  }

  /** The mount effect, step by step as the source runs it: copy the state,
      overwrite the text fields, write each decoded slot in place, and keep
      the result only if it has content. */
  method DecodeParams(ps: Params, cur: FormData) returns (next: FormData)
    requires WellFormed(cur)
    ensures next == Decode(ps, cur)
  {
    var urlData := cur;
    if Arg(ps, "name") != "" {
      urlData := urlData.(name := Arg(ps, "name"));
    }
    assert urlData == cur.(name := Merge(ps, cur).name);
    if Arg(ps, "title") != "" || Arg(ps, "jobTitle") != "" {
      urlData := urlData.(title := Or(Arg(ps, "title"), Arg(ps, "jobTitle")));
    }
    assert urlData == cur.(name := Merge(ps, cur).name, title := Merge(ps, cur).title);
    if Arg(ps, "email") != "" {
      urlData := urlData.(email := Arg(ps, "email"));
    }
    if Arg(ps, "phone") != "" {
      urlData := urlData.(phone := Arg(ps, "phone"));
    }
    assert urlData == Merge(ps, cur).(website := cur.website, logo := cur.logo, socialIcons := cur.socialIcons);
    if Arg(ps, "website") != "" {
      urlData := urlData.(website := Arg(ps, "website"));
    }
    var logoParam := Or(Arg(ps, "logo"), Arg(ps, "logoUrl"));
    if logoParam != "" {
      urlData := urlData.(logo := logoParam);
    }
    assert urlData == Merge(ps, cur).(socialIcons := cur.socialIcons);

    var icons := urlData.socialIcons;
    var i := 0;
    while i < SlotCount
      invariant 0 <= i <= SlotCount && |icons| == SlotCount
      invariant forall j :: 0 <= j < i ==> icons[j] == MergeSlot(ps, j, cur.socialIcons[j])
      invariant forall j :: i <= j < SlotCount ==> icons[j] == cur.socialIcons[j]
    {
      var socialName := Arg(ps, SlotKey(i, "Name"));
      var socialIcon := Arg(ps, SlotKey(i, "Icon"));
      var socialProfile := Or(Arg(ps, SlotKey(i, "Profile")), Arg(ps, SlotKey(i, "Link")));
      var legacyUrl := Arg(ps, SlotKey(i, "Url"));
      var iconUrl := Or(socialIcon, legacyUrl);
      var profileUrl := Or(socialProfile, legacyUrl);
      if socialName != "" || iconUrl != "" || profileUrl != "" {
        icons := icons[i := SocialIcon(socialName, iconUrl, profileUrl)];
      }
      i := i + 1;
    }
    assert icons == Merge(ps, cur).socialIcons;
    urlData := urlData.(socialIcons := icons);
    assert urlData == Merge(ps, cur);

    if HasContent(urlData) {
      next := urlData;
    } else {
      next := cur;
    }
  }

  /** The guard of lines 73-83 never changes the outcome: when the merged
      record has no content, nothing was overwritten and it equals the
      current state. */
  lemma DecodeIsMerge(ps: Params, cur: FormData)
    requires WellFormed(cur)
    ensures Decode(ps, cur) == Merge(ps, cur)
  {
    var u := Merge(ps, cur);
    if !HasContent(u) {
      forall i | 0 <= i < SlotCount ensures u.socialIcons[i] == cur.socialIcons[i] {
        assert IsBlankIcon(u.socialIcons[i]);
      }
      assert u.socialIcons == cur.socialIcons;
    }
  }

  /** A query with no parameters leaves the state exactly as it was. */
  lemma DecodeEmptyQuery(cur: FormData)
    requires WellFormed(cur)
    ensures Decode([], cur) == cur
  {
    assert Merge([], cur).socialIcons == cur.socialIcons;
  }

  /** The text fields: a non-empty `name`, `email`, `phone` or `website`
      parameter sets its field; an absent or empty one leaves it. */
  lemma DecodeTextFields(ps: Params, cur: FormData)
    requires WellFormed(cur)
    ensures Decode(ps, cur).name == if Arg(ps, "name") != "" then Arg(ps, "name") else cur.name
    ensures Decode(ps, cur).email == if Arg(ps, "email") != "" then Arg(ps, "email") else cur.email
    ensures Decode(ps, cur).phone == if Arg(ps, "phone") != "" then Arg(ps, "phone") else cur.phone
    ensures Decode(ps, cur).website == if Arg(ps, "website") != "" then Arg(ps, "website") else cur.website
  {
    DecodeIsMerge(ps, cur);
  }

  /** `title` wins over the legacy `jobTitle`, and `logo` over `logoUrl`;
      an empty canonical parameter counts as absent. */
  lemma DecodeAliasPrecedence(ps: Params, cur: FormData)
    requires WellFormed(cur)
    ensures Decode(ps, cur).title ==
      if Arg(ps, "title") != "" then Arg(ps, "title")
      else if Arg(ps, "jobTitle") != "" then Arg(ps, "jobTitle")
      else cur.title
    ensures Decode(ps, cur).logo ==
      if Arg(ps, "logo") != "" then Arg(ps, "logo")
      else if Arg(ps, "logoUrl") != "" then Arg(ps, "logoUrl")
      else cur.logo
  {
    DecodeIsMerge(ps, cur);
  }

  /** Slot `i` becomes the decoded slot when one of its derived fields is
      non-empty, the icon URL taken from `Icon` and else `Url`, the profile
      from `Profile`, else `Link`, else `Url`; otherwise the slot is left
      exactly as it was. */
  lemma DecodeSlot(ps: Params, cur: FormData, i: nat)
    requires WellFormed(cur) && i < SlotCount
    ensures var name := Arg(ps, SlotKey(i, "Name"));
            var url := Arg(ps, SlotKey(i, "Url"));
            var icon := if Arg(ps, SlotKey(i, "Icon")) != "" then Arg(ps, SlotKey(i, "Icon")) else url;
            var profile := if Arg(ps, SlotKey(i, "Profile")) != "" then Arg(ps, SlotKey(i, "Profile"))
                           else if Arg(ps, SlotKey(i, "Link")) != "" then Arg(ps, SlotKey(i, "Link"))
                           else url;
            Decode(ps, cur).socialIcons[i] ==
              if name != "" || icon != "" || profile != "" then SocialIcon(name, icon, profile)
              else cur.socialIcons[i]
  {
    DecodeIsMerge(ps, cur);
  }

  /** A lone legacy `social{i}Url` sets both URLs of slot `i` to its value. */
  lemma DecodeLoneLegacyUrl(ps: Params, cur: FormData, i: nat)
    requires WellFormed(cur) && i < SlotCount
    requires Arg(ps, SlotKey(i, "Name")) == "" && Arg(ps, SlotKey(i, "Icon")) == ""
    requires Arg(ps, SlotKey(i, "Profile")) == "" && Arg(ps, SlotKey(i, "Link")) == ""
    requires Arg(ps, SlotKey(i, "Url")) != ""
    ensures var url := Arg(ps, SlotKey(i, "Url"));
            Decode(ps, cur).socialIcons[i] == SocialIcon("", url, url)
  {
    DecodeSlot(ps, cur, i);
  }

  /** Decoding never makes a slot blank: each slot is either left as it was
      or holds a non-empty field. */
  lemma DecodedSlotsNeverBlank(ps: Params, cur: FormData, i: nat)
    requires WellFormed(cur) && i < SlotCount
    ensures Decode(ps, cur).socialIcons[i] == cur.socialIcons[i]
         || !IsBlankIcon(Decode(ps, cur).socialIcons[i])
  {
    DecodeIsMerge(ps, cur);
  }

  /** The five keys decoding reads for slot `i`. */
  function SlotParamKeys(i: nat): set<string>
    requires i < 10
  {
    {SlotKey(i, "Name"), SlotKey(i, "Icon"), SlotKey(i, "Profile"), SlotKey(i, "Link"), SlotKey(i, "Url")}
  }

  /** Every key decoding reads: the text fields with their aliases and the
      five keys of each of the three slots. */
  function DecodedKeys(): set<string> {
    TextKeys + SlotParamKeys(0) + SlotParamKeys(1) + SlotParamKeys(2)
  }

  /** Keys of slots past the third are not read. */
  lemma HigherSlotKeysIgnored(n: nat, suffix: string)
    requires SlotCount <= n < 10
    ensures SlotKey(n, suffix) !in DecodedKeys()
  {
    var k := SlotKey(n, suffix);
    forall i: nat, f | i < SlotCount && k == SlotKey(i, f) ensures false {
      SlotKeyInjective(n, suffix, i, f);
    }
    SlotKeyShape(n, suffix);
    assert k !in SlotParamKeys(0) && k !in SlotParamKeys(1) && k !in SlotParamKeys(2);
  }

  /** A slot decodes alike from two queries that differ at most on one key
      that is not one of the slot's five. */
  lemma SlotIgnoresKey(ps: Params, qs: Params, i: nat, k: string)
    requires i < 10 && k !in SlotParamKeys(i)
    requires forall k' :: k' != k ==> Arg(ps, k') == Arg(qs, k')
    ensures DecodedIcon(ps, i) == DecodedIcon(qs, i)
  {
  }

  /** The keys of the text fields decoding reads, aliases included. */
  const TextKeys: set<string> := {"name", "title", "jobTitle", "email", "phone", "website", "logo", "logoUrl"}

  /** Two queries read alike at every text-field key. */
  predicate SameTextArgs(ps: Params, qs: Params) {
    && Arg(ps, "name") == Arg(qs, "name") && Arg(ps, "title") == Arg(qs, "title")
    && Arg(ps, "jobTitle") == Arg(qs, "jobTitle") && Arg(ps, "email") == Arg(qs, "email")
    && Arg(ps, "phone") == Arg(qs, "phone") && Arg(ps, "website") == Arg(qs, "website")
    && Arg(ps, "logo") == Arg(qs, "logo") && Arg(ps, "logoUrl") == Arg(qs, "logoUrl")
  }

  /** Queries that differ at most on a key outside `TextKeys` read the text
      keys alike. */
  lemma TextIgnoresKey(ps: Params, qs: Params, k: string)
    requires k !in TextKeys
    requires forall k' :: k' != k ==> Arg(ps, k') == Arg(qs, k')
    ensures SameTextArgs(ps, qs)
  {
  }

  /** Merging depends on the query only through the text keys and the
      decoded slots. */
  lemma MergeCongruent(ps: Params, qs: Params, cur: FormData)
    requires WellFormed(cur) && SameTextArgs(ps, qs)
    requires DecodedIcon(ps, 0) == DecodedIcon(qs, 0) && DecodedIcon(ps, 1) == DecodedIcon(qs, 1)
    requires DecodedIcon(ps, 2) == DecodedIcon(qs, 2)
    ensures Merge(ps, cur) == Merge(qs, cur)
  {
    MergedSlots(ps, cur);
    MergedSlots(qs, cur);
  }

  /** Two queries that differ at most on a key decoding does not read merge
      alike. */
  lemma MergeIgnoresKey(ps: Params, qs: Params, k: string, cur: FormData)
    requires WellFormed(cur) && k !in DecodedKeys()
    requires forall k' :: k' != k ==> Arg(ps, k') == Arg(qs, k')
    ensures Merge(ps, cur) == Merge(qs, cur)
  {
    TextIgnoresKey(ps, qs, k);
    SlotIgnoresKey(ps, qs, 0, k);
    SlotIgnoresKey(ps, qs, 1, k);
    SlotIgnoresKey(ps, qs, 2, k);
    MergeCongruent(ps, qs, cur);
  }

  /** A pair whose key decoding does not read, inserted anywhere in the
      query, does not change the decoded state. */
  lemma DecodeIgnoresUnknownKey(a: Params, b: Params, k: string, v: string, cur: FormData)
    requires WellFormed(cur) && k !in DecodedKeys()
    ensures Decode(a + [(k, v)] + b, cur) == Decode(a + b, cur)
  {
    var ps, qs := a + [(k, v)] + b, a + b;
    forall k' | k' != k ensures Arg(ps, k') == Arg(qs, k') {
      GetSkipsOtherKey(a, b, k, v, k');
    }
    MergeIgnoresKey(ps, qs, k, cur);
    DecodeIsMerge(ps, cur);
    DecodeIsMerge(qs, cur);
  }

  /** A slot whose five keys all read as empty decodes to a blank slot. */
  lemma SlotKeysEmpty(ps: Params, i: nat)
    requires i < 10
    requires forall k :: k in SlotParamKeys(i) ==> Arg(ps, k) == ""
    ensures IsBlankIcon(DecodedIcon(ps, i))
  {
    assert SlotKey(i, "Name") in SlotParamKeys(i) && SlotKey(i, "Icon") in SlotParamKeys(i);
    assert SlotKey(i, "Profile") in SlotParamKeys(i) && SlotKey(i, "Link") in SlotParamKeys(i);
    assert SlotKey(i, "Url") in SlotParamKeys(i);
  }

  /** Text keys that all read as empty. */
  lemma TextKeysEmpty(ps: Params)
    requires forall k :: k in TextKeys ==> Arg(ps, k) == ""
    ensures Arg(ps, "name") == "" && Arg(ps, "title") == "" && Arg(ps, "jobTitle") == "" && Arg(ps, "email") == ""
    ensures Arg(ps, "phone") == "" && Arg(ps, "website") == "" && Arg(ps, "logo") == "" && Arg(ps, "logoUrl") == ""
  {
  }

  /** With every text key empty and every decoded slot blank, merging
      changes nothing. */
  lemma MergeUnchanged(ps: Params, cur: FormData)
    requires WellFormed(cur)
    requires Arg(ps, "name") == "" && Arg(ps, "title") == "" && Arg(ps, "jobTitle") == "" && Arg(ps, "email") == ""
    requires Arg(ps, "phone") == "" && Arg(ps, "website") == "" && Arg(ps, "logo") == "" && Arg(ps, "logoUrl") == ""
    requires IsBlankIcon(DecodedIcon(ps, 0)) && IsBlankIcon(DecodedIcon(ps, 1)) && IsBlankIcon(DecodedIcon(ps, 2))
    ensures Merge(ps, cur) == cur
  {
    MergedSlots(ps, cur);
    assert Merge(ps, cur).socialIcons == cur.socialIcons;
  }

  /** When every key decoding reads is absent or empty (the query is empty,
      or holds only unread keys or empty values), the state is left exactly
      as it was. */
  lemma DecodeNothingRead(ps: Params, cur: FormData)
    requires WellFormed(cur)
    requires forall k :: k in DecodedKeys() ==> Arg(ps, k) == ""
    ensures Decode(ps, cur) == cur
  {
    TextKeysEmpty(ps);
    SlotKeysEmpty(ps, 0);
    SlotKeysEmpty(ps, 1);
    SlotKeysEmpty(ps, 2);
    MergeUnchanged(ps, cur);
    DecodeIsMerge(ps, cur);
  }

  // ---------------------------------------------------------------------
  // Encoding (app/page.tsx:159-184)
  // ---------------------------------------------------------------------

  /** The canonical keys of the text fields, in the order they are emitted. */
  const ScalarKeys: seq<string> := ["name", "title", "email", "phone", "website", "logo"]
  /** The record fields those keys carry. */
  const ScalarFields: seq<Field> := [Name, Title, Email, Phone, Website, Logo]
  /** The canonical suffixes of a slot's keys, in the order they are emitted. */
  const IconSuffixes: seq<string> := ["Name", "Icon", "Profile"]
  /** The slot fields those suffixes carry. */
  const IconFields: seq<SocialField> := [SocialName, SocialIconUrl, SocialProfileUrl]
  /** How many canonical parameters a record has. */
  const FieldCount: nat := |ScalarKeys| + |IconSuffixes| * SlotCount

  /** The key of the `j`-th canonical parameter. */
  function FieldKey(j: nat): string
    requires j < FieldCount
  {
    if j < 6 then ScalarKeys[j] else SlotKey((j - 6) / 3, IconSuffixes[(j - 6) % 3])
  }

  /** The value of the `j`-th canonical parameter. */
  function FieldText(r: FormData, j: nat): string
    requires WellFormed(r) && j < FieldCount
  {
    if j < 6 then FieldValue(r, ScalarFields[j])
    else SocialValue(r.socialIcons[(j - 6) / 3], IconFields[(j - 6) % 3])
  }

  /** Every canonical parameter of the record, empty or not, in the order
      lines 171-182 set them. */
  function Fields(r: FormData): (fs: Params)
    requires WellFormed(r)
    ensures |fs| == FieldCount
  {
    seq(FieldCount, j requires 0 <= j < FieldCount => (FieldKey(j), FieldText(r, j)))
  }

  /** The parameters `copyLinkToClipboard` builds: the record's non-empty
      canonical parameters, in the fixed order. */
  function EncodePairs(r: FormData): (ps: Params)
    requires WellFormed(r)
    ensures forall p :: p in ps ==> p.1 != ""
  {
    NonEmptyMembers(Fields(r));
    NonEmpty(Fields(r))
  }

  /** The first character tells the canonical keys apart, except among slot
      keys, where the slot digit and the suffix do. */
  lemma FieldKeyInjective(a: nat, b: nat)
    requires a < FieldCount && b < FieldCount && FieldKey(a) == FieldKey(b)
    ensures a == b
  {
    if a >= 6 {
      SlotKeyShape((a - 6) / 3, IconSuffixes[(a - 6) % 3]);
    }
    if b >= 6 {
      SlotKeyShape((b - 6) / 3, IconSuffixes[(b - 6) % 3]);
    }
    if a >= 6 && b >= 6 {
      SlotKeyInjective((a - 6) / 3, IconSuffixes[(a - 6) % 3], (b - 6) / 3, IconSuffixes[(b - 6) % 3]);
      assert IconSuffixes[(a - 6) % 3][0] == IconSuffixes[(b - 6) % 3][0];
    } else {
      assert FieldKey(a)[0] == FieldKey(b)[0];
    }
  }

  lemma FieldsDistinctKeys(r: FormData)
    requires WellFormed(r)
    ensures DistinctKeys(Fields(r))
  {
    forall a, b | 0 <= a < b < FieldCount ensures Fields(r)[a].0 != Fields(r)[b].0 {
      if FieldKey(a) == FieldKey(b) {
        FieldKeyInjective(a, b);
      }
    }
  }

  /** Each canonical key reads its own field in the encoded parameters. */
  lemma EncodedArg(r: FormData, j: nat)
    requires WellFormed(r) && j < FieldCount
    ensures Arg(EncodePairs(r), FieldKey(j)) == FieldText(r, j)
  {
    FieldsDistinctKeys(r);
    ArgNonEmpty(Fields(r), j);
  }

  /** A key that is not canonical reads as absent in the encoded parameters. */
  lemma EncodedArgAbsent(r: FormData, k: string)
    requires WellFormed(r)
    requires forall j :: 0 <= j < FieldCount ==> FieldKey(j) != k
    ensures Arg(EncodePairs(r), k) == ""
  {
    NonEmptyMembers(Fields(r));
    forall p | p in EncodePairs(r) ensures p.0 != k {
      var j :| 0 <= j < FieldCount && Fields(r)[j] == p;
    }
    GetMeaning(EncodePairs(r), k);
  }

  /** The alias keys are never emitted. */
  lemma AliasesNotCanonical(i: nat)
    requires i < SlotCount
    ensures forall j :: 0 <= j < FieldCount ==> FieldKey(j) != "jobTitle" && FieldKey(j) != "logoUrl"
    ensures forall j :: 0 <= j < FieldCount ==> FieldKey(j) != SlotKey(i, "Link") && FieldKey(j) != SlotKey(i, "Url")
  {
    forall j | 0 <= j < FieldCount
      ensures FieldKey(j) != "jobTitle" && FieldKey(j) != "logoUrl"
      ensures FieldKey(j) != SlotKey(i, "Link") && FieldKey(j) != SlotKey(i, "Url")
    {
      SlotKeyShape(i, "Link");
      SlotKeyShape(i, "Url");
      if j < 6 {
        assert FieldKey(j)[0] != 's';
      } else {
        SlotKeyShape((j - 6) / 3, IconSuffixes[(j - 6) % 3]);
      }
    }
  }

  /** In the encoded parameters, slot `i`'s canonical keys read its fields. */
  lemma EncodedSlotArg(r: FormData, i: nat, m: nat)
    requires WellFormed(r) && i < SlotCount && m < 3
    ensures Arg(EncodePairs(r), SlotKey(i, IconSuffixes[m])) == SocialValue(r.socialIcons[i], IconFields[m])
  {
    FieldAtSlot(r, i, m);
    EncodedArg(r, 6 + 3 * i + m);
  }

  /** In the encoded parameters, slot `i`'s legacy keys read as absent. */
  lemma EncodedSlotAliasesAbsent(r: FormData, i: nat)
    requires WellFormed(r) && i < SlotCount
    ensures Arg(EncodePairs(r), SlotKey(i, "Link")) == ""
    ensures Arg(EncodePairs(r), SlotKey(i, "Url")) == ""
  {
    AliasesNotCanonical(i);
    EncodedArgAbsent(r, SlotKey(i, "Link"));
    EncodedArgAbsent(r, SlotKey(i, "Url"));
  }

  /** Slot `i` of the decoded parameters of `r` is slot `i` of `r`. */
  lemma RoundTripSlot(r: FormData, i: nat)
    requires WellFormed(r) && i < SlotCount
    ensures MergeSlot(EncodePairs(r), i, SocialIcon("", "", "")) == r.socialIcons[i]
  {
    EncodedSlotArg(r, i, 0);
    EncodedSlotArg(r, i, 1);
    EncodedSlotArg(r, i, 2);
    EncodedSlotAliasesAbsent(r, i);
  }

  /** Decoding the encoded parameters of any record, starting from the fresh
      state, gives back that record exactly. */
  lemma RoundTrip(r: FormData)
    requires WellFormed(r)
    ensures Decode(EncodePairs(r), Initial()) == r
  {
    var ps := EncodePairs(r);
    forall j | 0 <= j < 6 ensures Arg(ps, FieldKey(j)) == FieldText(r, j) {
      EncodedArg(r, j);
    }
    AliasesNotCanonical(0);
    EncodedArgAbsent(r, "jobTitle");
    EncodedArgAbsent(r, "logoUrl");
    assert FieldKey(0) == "name" && FieldKey(1) == "title" && FieldKey(2) == "email";
    assert FieldKey(3) == "phone" && FieldKey(4) == "website" && FieldKey(5) == "logo";
    forall i | 0 <= i < SlotCount ensures Merge(ps, Initial()).socialIcons[i] == r.socialIcons[i] {
      RoundTripSlot(r, i);
    }
    assert Merge(ps, Initial()).socialIcons == r.socialIcons;
    DecodeIsMerge(ps, Initial());
  }

  /** Decoding normalises: re-encoding a decoded state and decoding again
      changes nothing, legacy aliases having become canonical keys. */
  lemma DecodeEncodeDecode(ps: Params)
    ensures Decode(EncodePairs(Decode(ps, Initial())), Initial()) == Decode(ps, Initial())
  {
    RoundTrip(Decode(ps, Initial()));
  }

  /** Where slot `i`'s `m`-th canonical parameter sits in `Fields`. */
  lemma FieldAtSlot(r: FormData, i: nat, m: nat)
    requires WellFormed(r) && i < SlotCount && m < 3
    ensures 6 + 3 * i + m < FieldCount
    ensures FieldKey(6 + 3 * i + m) == SlotKey(i, IconSuffixes[m])
    ensures FieldText(r, 6 + 3 * i + m) == SocialValue(r.socialIcons[i], IconFields[m])
  {
    var j := 6 + 3 * i + m;
    assert (j - 6) / 3 == i && (j - 6) % 3 == m;
  }

  /** A record with content has a non-empty canonical parameter. */
  lemma ContentHasField(r: FormData) returns (j: nat)
    requires WellFormed(r) && HasContent(r)
    ensures j < FieldCount && FieldText(r, j) != ""
  {
    if r.name != "" { j := 0; }
    else if r.title != "" { j := 1; }
    else if r.email != "" { j := 2; }
    else if r.phone != "" { j := 3; }
    else if r.website != "" { j := 4; }
    else if r.logo != "" { j := 5; }
    else {
      var i :| 0 <= i < SlotCount && !IsBlankIcon(r.socialIcons[i]);
      var s := r.socialIcons[i];
      var m := if s.name != "" then 0 else if s.iconUrl != "" then 1 else 2;
      FieldAtSlot(r, i, m);
      j := 6 + 3 * i + m;
    }
  }

  /** A record without content has only empty canonical parameters. */
  lemma BlankFieldsEmpty(r: FormData, j: nat)
    requires WellFormed(r) && !HasContent(r) && j < FieldCount
    ensures FieldText(r, j) == ""
  {
    if j >= 6 {
      assert IsBlankIcon(r.socialIcons[(j - 6) / 3]);
    }
  }

  /** A record encodes to no parameters exactly when it has no content. */
  lemma EncodeEmptyIffBlank(r: FormData)
    requires WellFormed(r)
    ensures EncodePairs(r) == [] <==> !HasContent(r)
  {
    var fs := Fields(r);
    NonEmptyMembers(fs);
    if HasContent(r) {
      var j := ContentHasField(r);
      assert fs[j] in fs;
      assert fs[j] in EncodePairs(r);
    } else if EncodePairs(r) != [] {
      var p := EncodePairs(r)[0];
      assert p in fs;
      var j :| 0 <= j < FieldCount && fs[j] == p;
      BlankFieldsEmpty(r, j);
    }
  }

  /** `setParam` (lines 165-169): set the key only when the value is not empty. */
  function SetIfPresent(ps: Params, k: string, v: string): (r: Params)
    ensures v == "" ==> r == ps
  {
    if v != "" then SetParam(ps, k, v) else ps
  }

  /** After `setParam` with a non-empty value the key reads that value; no
      other key reads differently, whatever the value. */
  lemma SetIfPresentMeaning(ps: Params, k: string, v: string)
    ensures v != "" ==> Get(SetIfPresent(ps, k, v), k) == Some(v)
    ensures forall k' :: k' != k ==> Get(SetIfPresent(ps, k, v), k') == Get(ps, k')
  {
    SetParamMeaning(ps, k, v);
  }

  /** No earlier canonical parameter has the key of the `j`-th one. */
  lemma PrefixLacksKey(r: FormData, j: nat)
    requires WellFormed(r) && j < FieldCount
    ensures Get(NonEmpty(Fields(r)[..j]), FieldKey(j)).None?
  {
    var fs := Fields(r);
    var pre := fs[..j];
    NonEmptyMembers(pre);
    forall p | p in NonEmpty(pre) ensures p.0 != FieldKey(j) {
      var a :| 0 <= a < j && pre[a] == p;
      assert p.0 == FieldKey(a);
      if p.0 == FieldKey(j) {
        FieldKeyInjective(a, j);
      }
    }
    GetMeaning(NonEmpty(pre), FieldKey(j));
  }

  /** Setting a key the filtered prefix lacks extends it by the next pair,
      when the value is not empty. */
  lemma AppendStep(fs: Params, j: nat, k: string, v: string)
    requires j < |fs| && fs[j] == (k, v)
    requires Get(NonEmpty(fs[..j]), k).None?
    ensures SetIfPresent(NonEmpty(fs[..j]), k, v) == NonEmpty(fs[..j + 1])
  {
    assert fs[..j + 1] == fs[..j] + [(k, v)];
    NonEmptyAppend(fs[..j], [(k, v)]);
    assert [(k, v)][1..] == [];
  }

  /** The `j`-th canonical parameter. */
  lemma FieldAt(r: FormData, j: nat)
    requires WellFormed(r) && j < FieldCount
    ensures Fields(r)[j] == (FieldKey(j), FieldText(r, j))
  {
  }

  /** Setting the next canonical parameter extends the filtered prefix: its
      key is not yet present, so `set` appends. */
  lemma SetStep(r: FormData, j: nat)
    requires WellFormed(r) && j < FieldCount
    ensures SetIfPresent(NonEmpty(Fields(r)[..j]), FieldKey(j), FieldText(r, j)) == NonEmpty(Fields(r)[..j + 1])
  {
    FieldAt(r, j);
    PrefixLacksKey(r, j);
    AppendStep(Fields(r), j, FieldKey(j), FieldText(r, j));
  }

  /** Setting the `j`-th text field, named by its key and value. */
  lemma ScalarStep(r: FormData, j: nat, k: string, v: string)
    requires WellFormed(r) && j < 6 && k == ScalarKeys[j] && v == FieldValue(r, ScalarFields[j])
    ensures SetIfPresent(NonEmpty(Fields(r)[..j]), k, v) == NonEmpty(Fields(r)[..j + 1])
  {
    SetStep(r, j);
  }

  /** The first three `setParam` calls of lines 171-173. */
  lemma FirstScalarSteps(r: FormData)
    requires WellFormed(r)
    ensures var ps := SetIfPresent([], "name", r.name);
            var ps := SetIfPresent(ps, "title", r.title);
            SetIfPresent(ps, "email", r.email) == NonEmpty(Fields(r)[..3])
  {
    assert Fields(r)[..0] == [];
    ScalarStep(r, 0, "name", r.name);
    ScalarStep(r, 1, "title", r.title);
    ScalarStep(r, 2, "email", r.email);
  }

  /** The six `setParam` calls of lines 171-176 give the filtered text fields. */
  lemma ScalarSteps(r: FormData)
    requires WellFormed(r)
    ensures var ps := SetIfPresent([], "name", r.name);
            var ps := SetIfPresent(ps, "title", r.title);
            var ps := SetIfPresent(ps, "email", r.email);
            var ps := SetIfPresent(ps, "phone", r.phone);
            var ps := SetIfPresent(ps, "website", r.website);
            SetIfPresent(ps, "logo", r.logo) == NonEmpty(Fields(r)[..6])
  {
    FirstScalarSteps(r);
    var p1 := SetIfPresent([], "name", r.name);
    var p2 := SetIfPresent(p1, "title", r.title);
    LastScalarSteps(r, SetIfPresent(p2, "email", r.email));
  }

  /** The last three `setParam` calls of lines 174-176. */
  lemma LastScalarSteps(r: FormData, ps: Params)
    requires WellFormed(r) && ps == NonEmpty(Fields(r)[..3])
    ensures var ps := SetIfPresent(ps, "phone", r.phone);
            var ps := SetIfPresent(ps, "website", r.website);
            SetIfPresent(ps, "logo", r.logo) == NonEmpty(Fields(r)[..6])
  {
    ScalarStep(r, 3, "phone", r.phone);
    ScalarStep(r, 4, "website", r.website);
    ScalarStep(r, 5, "logo", r.logo);
  }

  /** Setting slot `i`'s `m`-th canonical field extends the filtered prefix. */
  lemma SlotStep(r: FormData, i: nat, m: nat)
    requires WellFormed(r) && i < SlotCount && m < 3
    ensures 6 + 3 * i + m < FieldCount
    ensures SetIfPresent(NonEmpty(Fields(r)[..6 + 3 * i + m]), SlotKey(i, IconSuffixes[m]),
                         SocialValue(r.socialIcons[i], IconFields[m]))
         == NonEmpty(Fields(r)[..6 + 3 * i + m + 1])
  {
    FieldAtSlot(r, i, m);
    SetStep(r, 6 + 3 * i + m);
  }

  /** The three `setParam` calls for slot `i` (lines 179-181) extend the
      filtered prefix by that slot's fields. */
  lemma SlotSteps(r: FormData, i: nat)
    requires WellFormed(r) && i < SlotCount
    ensures var s := r.socialIcons[i];
            var ps := SetIfPresent(NonEmpty(Fields(r)[..6 + 3 * i]), SlotKey(i, "Name"), s.name);
            var ps := SetIfPresent(ps, SlotKey(i, "Icon"), s.iconUrl);
            SetIfPresent(ps, SlotKey(i, "Profile"), s.profileUrl) == NonEmpty(Fields(r)[..6 + 3 * (i + 1)])
  {
    var b := 6 + 3 * i;
    assert IconSuffixes[0] == "Name" && IconSuffixes[1] == "Icon" && IconSuffixes[2] == "Profile";
    assert IconFields[0] == SocialName && IconFields[1] == SocialIconUrl && IconFields[2] == SocialProfileUrl;
    SlotStep(r, i, 0);
    SlotStep(r, i, 1);
    SlotStep(r, i, 2);
    assert b + 0 == b && b + 0 + 1 == b + 1 && b + 1 + 1 == b + 2 && b + 2 + 1 == 6 + 3 * (i + 1);
  }

  /** The share URL: the base alone when there are no parameters, else the
      base, `?` and the query (line 184). */
  function ShareUrl(base: string, ps: Params): (url: string)
    ensures ps == [] ==> url == base
    ensures ps != [] ==> url == base + "?" + Query(ps)
  {
    var query := Query(ps);
    if query != "" then base + "?" + query else base
  }

  /** The shared link is the bare base exactly when the record has no content. */
  lemma ShareUrlBareIffBlank(base: string, r: FormData)
    requires WellFormed(r)
    ensures ShareUrl(base, EncodePairs(r)) == base <==> !HasContent(r)
  {
    EncodeEmptyIffBlank(r);
    var ps := EncodePairs(r);
    if ps != [] {
      assert |ShareUrl(base, ps)| > |base|;
    }
  }

  /** Lines 162-184 as the source runs them: build the parameters with
      `setParam` (text fields, then each slot in turn) and append them to the
      base URL (`window.location` origin and path, given here). */
  method BuildShareUrl(base: string, r: FormData) returns (url: string)
    requires WellFormed(r)
    ensures url == ShareUrl(base, EncodePairs(r))
  {
    var params: Params := [];
    params := SetIfPresent(params, "name", r.name);
    params := SetIfPresent(params, "title", r.title);
    params := SetIfPresent(params, "email", r.email);
    params := SetIfPresent(params, "phone", r.phone);
    params := SetIfPresent(params, "website", r.website);
    params := SetIfPresent(params, "logo", r.logo);
    ScalarSteps(r);

    var index := 0;
    while index < |r.socialIcons|
      invariant 0 <= index <= SlotCount
      invariant params == NonEmpty(Fields(r)[..6 + 3 * index])
    {
      var icon := r.socialIcons[index];
      SlotSteps(r, index);
      params := SetIfPresent(params, SlotKey(index, "Name"), icon.name);
      params := SetIfPresent(params, SlotKey(index, "Icon"), icon.iconUrl);
      params := SetIfPresent(params, SlotKey(index, "Profile"), icon.profileUrl);
      index := index + 1;
    }
    assert Fields(r)[..FieldCount] == Fields(r);

    var query := Query(params);
    url := if query != "" then base + "?" + query else base;
  }
}
