/** The signature record that app/page.tsx holds as React state, its initial
    value, and the two input handlers that replace one field of it. */
module Signature {

  /** One social link (lib/types `SocialIcon`): a label, an image URL and a
      destination URL, each a possibly empty string. */
  datatype SocialIcon = SocialIcon(name: string, iconUrl: string, profileUrl: string)

  /** The form state: six text fields and the social slots. */
  datatype FormData = FormData(
    name: string,
    title: string,
    email: string,
    phone: string,
    website: string,
    logo: string,
    socialIcons: seq<SocialIcon>)

  /** The number of social slots the page creates and decodes. */
  const SlotCount: nat := 3

  /** A record with exactly the three social slots. */
  predicate WellFormed(r: FormData) {
    |r.socialIcons| == SlotCount
  }

  /** A social slot whose three fields are all empty; the preview and the
      decoder treat it as absent. */
  predicate IsBlankIcon(s: SocialIcon) {
    s.name == "" && s.iconUrl == "" && s.profileUrl == ""
  }

  /** `createEmptySocialIcons` (app/page.tsx:11-16). */
  function CreateEmptySocialIcons(): (r: seq<SocialIcon>)
    ensures |r| == SlotCount
    ensures forall i :: 0 <= i < |r| ==> IsBlankIcon(r[i])
  {
    [SocialIcon("", "", ""), SocialIcon("", "", ""), SocialIcon("", "", "")]
  }

  /** The record's test `hasUrlParams` (app/page.tsx:73-79): some text field is
      non-empty, or some slot has a non-empty field. */
  predicate HasContent(r: FormData) {
    r.name != "" || r.title != "" || r.email != "" || r.phone != "" || r.website != "" || r.logo != ""
    || exists i :: 0 <= i < |r.socialIcons| && !IsBlankIcon(r.socialIcons[i])
  }

  /** The state `useState` starts from (app/page.tsx:19-27). */
  function Initial(): (r: FormData)
    ensures WellFormed(r) && !HasContent(r)
  {
    FormData("", "", "", "", "", "", CreateEmptySocialIcons())
  }

  /** A three-slot record has no content exactly when it is the initial
      record. */
  lemma NoContentIsInitial(r: FormData)
    requires WellFormed(r)
    ensures !HasContent(r) <==> r == Initial()
  {
    if !HasContent(r) {
      var blank := CreateEmptySocialIcons();
      forall i | 0 <= i < SlotCount ensures r.socialIcons[i] == blank[i] {
        assert IsBlankIcon(r.socialIcons[i]);
      }
      assert r.socialIcons == blank;
    }
  }

  /** The six names the form passes to `handleInputChange`. */
  datatype Field = Name | Title | Email | Phone | Website | Logo

  /** The text field that `f` names. */
  function FieldValue(r: FormData, f: Field): string {
    match f
    case Name => r.name
    case Title => r.title
    case Email => r.email
    case Phone => r.phone
    case Website => r.website
    case Logo => r.logo
  }

  /** The three names the form passes to `handleSocialChange`. */
  datatype SocialField = SocialName | SocialIconUrl | SocialProfileUrl

  /** The slot field that `f` names. */
  function SocialValue(s: SocialIcon, f: SocialField): string {
    match f
    case SocialName => s.name
    case SocialIconUrl => s.iconUrl
    case SocialProfileUrl => s.profileUrl
  }

  /** `handleInputChange` (app/page.tsx:86-91): the named field takes the new
      value; every other field and every slot stay as they were. */
  function HandleInputChange(r: FormData, f: Field, value: string): (r': FormData)
    ensures FieldValue(r', f) == value
    ensures forall g :: g != f ==> FieldValue(r', g) == FieldValue(r, g)
    ensures r'.socialIcons == r.socialIcons
  {
    match f
    case Name => r.(name := value)
    case Title => r.(title := value)
    case Email => r.(email := value)
    case Phone => r.(phone := value)
    case Website => r.(website := value)
    case Logo => r.(logo := value)
  }

  /** The slot with one field replaced (app/page.tsx:95-98). */
  function SetSocialValue(s: SocialIcon, f: SocialField, value: string): (s': SocialIcon)
    ensures SocialValue(s', f) == value
    ensures forall g :: g != f ==> SocialValue(s', g) == SocialValue(s, g)
  {
    match f
    case SocialName => s.(name := value)
    case SocialIconUrl => s.(iconUrl := value)
    case SocialProfileUrl => s.(profileUrl := value)
  }

  /** `handleSocialChange` (app/page.tsx:93-103): the chosen field of the
      chosen slot takes the new value; the slot count, the slot's other fields,
      the other slots and the text fields stay as they were. */
  function HandleSocialChange(r: FormData, index: nat, f: SocialField, value: string): (r': FormData)
    requires index < |r.socialIcons|
    ensures |r'.socialIcons| == |r.socialIcons|
    ensures SocialValue(r'.socialIcons[index], f) == value
    ensures forall g :: g != f ==> SocialValue(r'.socialIcons[index], g) == SocialValue(r.socialIcons[index], g)
    ensures forall j :: 0 <= j < |r.socialIcons| && j != index ==> r'.socialIcons[j] == r.socialIcons[j]
    ensures forall g :: FieldValue(r', g) == FieldValue(r, g)
  {
    r.(socialIcons := r.socialIcons[index := SetSocialValue(r.socialIcons[index], f, value)])
  }

  /** Writing a field's current value back leaves the record as it was, and
      a second write to the same field overrides the first. */
  lemma InputChangeOverwrites(r: FormData, f: Field, v: string, w: string)
    ensures HandleInputChange(r, f, FieldValue(r, f)) == r
    ensures HandleInputChange(HandleInputChange(r, f, v), f, w) == HandleInputChange(r, f, w)
  {
  }

  /** Changes to two different text fields commute. */
  lemma InputChangesCommute(r: FormData, f: Field, g: Field, v: string, w: string)
    requires f != g
    ensures HandleInputChange(HandleInputChange(r, f, v), g, w)
         == HandleInputChange(HandleInputChange(r, g, w), f, v)
  {
  }

  /** Both handlers keep the three-slot shape. */
  lemma HandlersKeepWellFormed(r: FormData, f: Field, index: nat, sf: SocialField, v: string)
    requires WellFormed(r) && index < SlotCount
    ensures WellFormed(HandleInputChange(r, f, v))
    ensures WellFormed(HandleSocialChange(r, index, sf, v))
  {
  }
}
