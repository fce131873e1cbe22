/** What `SignaturePreview` (components/signature-preview.tsx) shows for a
    record: which rows and cells appear, their text and link targets, and how
    each social slot is drawn. Markup and styles are not modelled. */
module Preview {
  import opened Optional
  import opened Utils
  import opened Signature

  /** A link: where it points and what it reads. */
  datatype Anchor = Anchor(href: string, text: string)

  /** What a social entry shows: an image with its alt text, or a text label. */
  datatype Content = Image(src: string, alt: string) | Label(text: string)

  /** One drawn social entry: the slot it comes from (the React key), the
      link around it if any, and its content. */
  datatype SocialEntry = SocialEntry(slot: nat, link: Option<string>, content: Content)

  /** The signature as shown: the logo cell, the name line, the optional
      title, email, phone and website rows, and the optional social row. */
  datatype View = View(
    logo: Option<string>,
    displayName: string,
    title: Option<string>,
    email: Option<Anchor>,
    phone: Option<Anchor>,
    website: Option<Anchor>,
    social: Option<seq<SocialEntry>>)

  /** The name line (line 59). */
  const DefaultName := "John Doe"
  /** The label of a slot without a name or image (line 140). */
  const DefaultLabel := "Social"
  /** The alt text of an image in a slot without a name (line 120). */
  const DefaultAlt := "Social icon"

  /** One social slot as drawn (lines 119-169). The link goes to the
      profile, else to the image, else nowhere; an image is shown exactly when
      there is an image URL, with the name (or a default) as alt text;
      otherwise a label that is never empty. */
  function RenderIcon(slot: nat, icon: SocialIcon): (e: SocialEntry)
    ensures e.slot == slot
    ensures e.link.None? <==> icon.profileUrl == "" && icon.iconUrl == ""
    ensures e.link.Some? ==> e.link.value != ""
    ensures icon.profileUrl != "" ==> e.link == Some(icon.profileUrl)
    ensures icon.profileUrl == "" && icon.iconUrl != "" ==> e.link == Some(icon.iconUrl)
    ensures e.content.Image? <==> icon.iconUrl != ""
    ensures e.content.Image? ==> e.content.src == icon.iconUrl
    ensures e.content.Image? && icon.name != "" ==> e.content.alt == icon.name + " icon"
    ensures e.content.Image? && icon.name == "" ==> e.content.alt == DefaultAlt
    ensures e.content.Label? ==> e.content.text != ""
    ensures e.content.Label? ==> e.content.text == if icon.name != "" then icon.name else DefaultLabel
  {
    var linkHref := if icon.profileUrl != "" then icon.profileUrl else icon.iconUrl;
    var altText := if icon.name != "" then icon.name + " icon" else DefaultAlt;
    var content := if icon.iconUrl != "" then Image(icon.iconUrl, altText)
                   else Label(if icon.name != "" then icon.name else DefaultLabel);
    SocialEntry(slot, if linkHref != "" then Some(linkHref) else None, content)
  }

  /** The entries for slots `from` onward (lines 114-172): blank slots draw
      nothing; the others are drawn in slot order. */
  function Entries(icons: seq<SocialIcon>, from: nat): (es: seq<SocialEntry>)
    requires from <= |icons|
    decreases |icons| - from
    ensures forall k :: 0 <= k < |es| ==>
      from <= es[k].slot < |icons| && !IsBlankIcon(icons[es[k].slot]) && es[k] == RenderIcon(es[k].slot, icons[es[k].slot])
    ensures forall k, l :: 0 <= k < l < |es| ==> es[k].slot < es[l].slot
  {
    if from == |icons| then []
    else
      var rest := Entries(icons, from + 1);
      if IsBlankIcon(icons[from]) then rest
      else
        var e := RenderIcon(from, icons[from]);
        assert forall k :: 0 < k < |[e] + rest| ==> ([e] + rest)[k] == rest[k - 1];
        [e] + rest
  }

  /** Every slot that is not blank is drawn, so the list is empty exactly
      when every slot is blank. */
  lemma {:induction false} EntriesComplete(icons: seq<SocialIcon>, from: nat)
    requires from <= |icons|
    decreases |icons| - from
    ensures forall j :: from <= j < |icons| && !IsBlankIcon(icons[j]) ==> RenderIcon(j, icons[j]) in Entries(icons, from)
    ensures Entries(icons, from) == [] <==> forall j :: from <= j < |icons| ==> IsBlankIcon(icons[j])
  {
    if from < |icons| {
      EntriesComplete(icons, from + 1);
    }
  }

  /** The website row (lines 92-98): shown when the normalised URL is not
      empty, linking to it and reading as the input without its scheme, or as
      the link itself when nothing is left after the scheme. */
  function RenderWebsite(website: string): (a: Option<Anchor>)
    ensures a.Some? <==> !IsBlank(website)
    ensures a.Some? ==> a.value.href == EnsureHttpsUrl(website)
    ensures a.Some? ==> HasScheme(a.value.href) && a.value.text != ""
    ensures a.Some? && StripUrlProtocol(website) != "" ==> a.value.text == StripUrlProtocol(website)
    ensures a.Some? && StripUrlProtocol(website) == "" ==> a.value.text == a.value.href
  {
    var websiteUrl := EnsureHttpsUrl(website);
    var websiteText := StripUrlProtocol(website);
    if websiteUrl != "" then Some(Anchor(websiteUrl, if websiteText != "" then websiteText else websiteUrl))
    else None
  }

  /** The social row (lines 102-117): shown when some slot is not blank,
      holding the entries of the non-blank slots. */
  function RenderSocial(icons: seq<SocialIcon>): (es: Option<seq<SocialEntry>>)
    ensures es.Some? <==> exists j :: 0 <= j < |icons| && !IsBlankIcon(icons[j])
    ensures es.Some? ==> es.value == Entries(icons, 0) && es.value != []
  {
    EntriesComplete(icons, 0);
    if exists j :: 0 <= j < |icons| && !IsBlankIcon(icons[j]) then Some(Entries(icons, 0)) else None
  }

  /** The whole preview of a record (lines 20-174). */
  function Render(r: FormData): (v: View)
    ensures v.displayName != ""
    ensures r.name != "" ==> v.displayName == r.name
    ensures r.name == "" ==> v.displayName == DefaultName
    ensures v.logo.Some? <==> r.logo != ""
    ensures v.logo.Some? ==> v.logo.value == r.logo
    ensures v.title.Some? <==> r.title != ""
    ensures v.title.Some? ==> v.title.value == r.title
    ensures v.email.Some? <==> r.email != ""
    ensures v.email.Some? ==> v.email.value == Anchor("mailto:" + r.email, r.email)
    ensures v.phone.Some? <==> r.phone != ""
    ensures v.phone.Some? ==> v.phone.value == Anchor("tel:" + r.phone, r.phone)
    ensures v.website == RenderWebsite(r.website)
    ensures v.social == RenderSocial(r.socialIcons)
  {
    View(
      if r.logo != "" then Some(r.logo) else None,
      if r.name != "" then r.name else DefaultName,
      if r.title != "" then Some(r.title) else None,
      if r.email != "" then Some(Anchor("mailto:" + r.email, r.email)) else None,
      if r.phone != "" then Some(Anchor("tel:" + r.phone, r.phone)) else None,
      RenderWebsite(r.website),
      RenderSocial(r.socialIcons))
  }

  /** The website link reads as its target without the scheme: the target is
      the shown text behind the input's own scheme, or `https://`. */
  lemma WebsiteTextIsHrefWithoutScheme(website: string)
    ensures var a := RenderWebsite(website);
            var t := Trim(website);
            a.Some? && StripUrlProtocol(website) != "" ==>
              a.value.href == (if HasScheme(t) then SchemeOf(t) else "https://") + a.value.text
  {
    if !IsBlank(website) {
      EnsureIsSchemePlusStripped(website);
    }
  }
}
