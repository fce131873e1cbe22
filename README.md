# Email signature generator: share-link codec and display rules in Dafny

This project models the core of a small Next.js email-signature generator.
The page keeps one form record: name, title, email, phone, website and logo
URL, plus three social slots, each with a name, an icon URL and a profile URL.
The model covers:

- the record and its two input handlers (`signature.dfy`);
- the share link. Encoding writes the record's non-empty fields as query
  parameters in a fixed order. Decoding reads parameters back on mount,
  accepting the legacy aliases `jobTitle`, `logoUrl`, `social{i}Link` and
  `social{i}Url` (`codec.dfy`). This is built on a model of the part of
  `URLSearchParams` the page uses (`params.dfy`);
- the URL helpers `ensureHttpsUrl` and `stripUrlProtocol`, with JavaScript's
  `trim` (`utils.dfy`);
- what the signature preview shows for a record (`preview.dfy`): which rows
  appear, their text and link targets, and how each social slot is drawn.

The main results:

- Decoding the encoded parameters of any three-slot record, starting from
  the fresh state, gives back that record exactly (`Codec.RoundTrip`).
- The `hasUrlParams` guard of the mount effect never changes the outcome
  (`Codec.DecodeIsMerge`).
- The two imperative routines of the page are proved against these functions:
  the mount effect (`Codec.DecodeParams`) and the share-URL builder
  (`Codec.BuildShareUrl`).

All files verify together. No module depends on anything outside the project.

## Model

| member | source | states |
|---|---|---|
| Utils.Trim | lib/utils.ts:9 | `trim` removes whitespace from both ends and nothing else: the result is the slice of the input between a blank prefix and a blank suffix; neither of its ends is whitespace; it is empty exactly when the input is blank |
| Utils.TrimIdempotent | lib/utils.ts:9 | trimming twice is trimming once |
| Utils.SchemeLength | lib/utils.ts:14 | the `/^https?:\/\//i` prefix is 8 characters exactly when the input starts with `https://`, 7 exactly when it starts with `http://`, in any letter case, and 0 otherwise |
| Utils.SchemeOf | lib/utils.ts:14 | the matched prefix, in the input's own casing: the first `SchemeLength` characters of the input, empty exactly when there is no scheme |
| Utils.EnsureHttpsUrl | lib/utils.ts:8-15 | blank input gives `""`, and only blank input does; a non-empty result is trimmed and has a scheme; a trimmed input that has a scheme is returned as it is; one without gets `https://` in front |
| Utils.StripUrlProtocol | lib/utils.ts:17-19 | the result is the trimmed input when it has no scheme; otherwise the trimmed input is the matched scheme followed by the result |
| Utils.EnsureHttpsUrlIdempotent | lib/utils.ts:8-15 | applying `ensureHttpsUrl` to its own result changes nothing |
| Utils.EnsureIsSchemePlusStripped | lib/utils.ts:8-19 | for non-blank input, `ensureHttpsUrl` equals the input's own scheme, or `https://`, followed by `stripUrlProtocol` |
| Utils.StripRemovesOneScheme | lib/utils.ts:18 | only one leading scheme is removed: a trimmed `http://` + u becomes u, even when u starts with another scheme |
| Signature.CreateEmptySocialIcons | app/page.tsx:11-16 | three slots, all blank |
| Signature.Initial | app/page.tsx:19-27 | the initial record has three slots and no content |
| Signature.HasContent | app/page.tsx:73-79 | the `hasUrlParams` test: some text field is non-empty, or some slot has a non-empty field; `NoContentIsInitial` gives its meaning |
| Signature.NoContentIsInitial | app/page.tsx:73-79 | a three-slot record fails the `hasUrlParams` test exactly when it is the initial record |
| Signature.HandleInputChange | app/page.tsx:86-91 | the named field takes the value; every other text field and the slots are unchanged |
| Signature.SetSocialValue | app/page.tsx:95-98 | the named slot field takes the value; the slot's other fields are unchanged |
| Signature.HandleSocialChange | app/page.tsx:93-103 | same slot count; the chosen field of the chosen slot takes the value; its other fields, the other slots and the text fields are unchanged |
| Signature.InputChangeOverwrites | app/page.tsx:86-91 | writing a field's current value is a no-op; a later write to the same field overrides an earlier one |
| Signature.InputChangesCommute | app/page.tsx:86-91 | writes to two different fields commute |
| Signature.HandlersKeepWellFormed | app/page.tsx:86-103 | both handlers keep the three-slot shape |
| Params.Get | app/page.tsx:41-61 | `URLSearchParams.get`: a value it answers is one that a pair with that key holds |
| Params.GetMeaning | app/page.tsx:41 | `get` reports absent exactly when no pair has the key; otherwise it returns a value that a pair with that key holds |
| Params.GetFirst | app/page.tsx:41 | `get` returns the value of the first pair with the key |
| Params.Arg | app/page.tsx:54-59 | `params.get(k) \|\| ''`: a non-empty reading is a value that a pair with that key holds |
| Params.Or | app/page.tsx:43 | `a \|\| b` on strings is `a` when `a` is not empty and `b` when it is; it is empty exactly when both are |
| Params.SetParam | app/page.tsx:167 | `set` on a missing key appends the pair |
| Params.SetParamMeaning | app/page.tsx:167 | after `set`, the key reads the new value and every other key reads as before |
| Params.ArgNonEmpty | app/page.tsx:165-169 | in a list with distinct keys, dropping the empty values leaves each key reading its own value, an empty value reading as `""` |
| Params.Query | app/page.tsx:184 | the query text is empty exactly when there are no pairs |
| Codec.DecodedIcon | app/page.tsx:53-61 | the decoded slot's name is `social{i}Name`; its icon URL is `social{i}Icon`, else the legacy `social{i}Url`; its profile URL is the first non-empty of `Profile`, `Link` and `Url`; it is blank exactly when all five parameters read empty |
| Codec.MergeSlot | app/page.tsx:63-69 | a merged slot is either the current slot or not blank |
| Codec.Merge | app/page.tsx:36-70 | merging keeps the three-slot shape |
| Codec.Decode | app/page.tsx:72-83 | decoding keeps the three-slot shape |
| Codec.DecodeParams | app/page.tsx:34-84 | the step-by-step mount effect (copy, overwrite the text fields, loop over the slots, guard) computes `Decode` |
| Codec.DecodeIsMerge | app/page.tsx:73-83 | for a three-slot record, the `hasUrlParams` guard never changes the outcome: the result is always the merged record |
| Codec.DecodeEmptyQuery | app/page.tsx:35-83 | a query with no parameters leaves the state unchanged |
| Codec.DecodeNothingRead | app/page.tsx:36-83 | when every key decoding reads is absent or empty (an empty query, or one holding only unread keys or empty values), the state is left exactly as it was |
| Codec.DecodeTextFields | app/page.tsx:41-47 | a non-empty `name`, `email`, `phone` or `website` sets its field; an absent or empty one leaves the field as it was |
| Codec.DecodeAliasPrecedence | app/page.tsx:42-49 | `title` wins over `jobTitle`, and `logo` over `logoUrl`; an empty canonical parameter falls back to the alias, then to the current value |
| Codec.DecodeSlot | app/page.tsx:52-70 | slot i becomes (name, Icon else Url, Profile else Link else Url) when one of these is non-empty; otherwise it is left exactly as it was |
| Codec.DecodeLoneLegacyUrl | app/page.tsx:59-61 | a lone `social{i}Url` sets both the icon and the profile URL of slot i |
| Codec.DecodedSlotsNeverBlank | app/page.tsx:63-69 | after decoding, each slot is either unchanged or not blank |
| Codec.HigherSlotKeysIgnored | app/page.tsx:52 | keys of slots 3 to 9 are not among the keys decoding reads |
| Codec.MergeIgnoresKey | app/page.tsx:36-70 | two queries that differ only on a key outside the read keys merge alike |
| Codec.DecodeIgnoresUnknownKey | app/page.tsx:34-84 | inserting a pair with an unread key anywhere in the query does not change the decoded state |
| Codec.EncodePairs | app/page.tsx:165-182 | every emitted parameter has a non-empty value |
| Codec.EncodedArg | app/page.tsx:171-182 | in the encoded parameters, each canonical key reads its own field |
| Codec.RoundTrip | app/page.tsx:41-182 | decoding the encoded parameters of any three-slot record, starting from the fresh state, gives back that record |
| Codec.DecodeEncodeDecode | app/page.tsx:34-182 | re-encoding a decoded state and decoding it again changes nothing |
| Codec.EncodeEmptyIffBlank | app/page.tsx:165-182 | a record encodes to no parameters exactly when it has no content |
| Codec.SetIfPresent | app/page.tsx:165-169 | `setParam` with an empty value leaves the parameters unchanged |
| Codec.SetIfPresentMeaning | app/page.tsx:165-169 | after `setParam` with a non-empty value the key reads that value; no other key reads differently |
| Codec.SetStep | app/page.tsx:165-182 | each `setParam` call appends its pair to the parameters built so far when the value is non-empty, and changes nothing otherwise |
| Codec.ShareUrl | app/page.tsx:184 | the bare base when there are no parameters, otherwise base, `?` and the query |
| Codec.ShareUrlBareIffBlank | app/page.tsx:184 | the shared link is the bare base exactly when the record has no content |
| Codec.BuildShareUrl | app/page.tsx:159-184 | the step-by-step `setParam` sequence and the slot loop produce the share URL of the encoded parameters |
| Preview.RenderIcon | components/signature-preview.tsx:119-169 | a slot links to its profile, else to its icon URL, else nowhere; it shows an image exactly when it has an icon URL, with alt text `<name> icon` or `Social icon`; otherwise it shows its name or `Social`, never empty |
| Preview.Entries | components/signature-preview.tsx:114-172 | each entry comes from a non-blank slot and is that slot's rendering; entries are in strictly increasing slot order |
| Preview.EntriesComplete | components/signature-preview.tsx:114-117 | every non-blank slot has its entry; the list is empty exactly when all slots are blank |
| Preview.RenderWebsite | components/signature-preview.tsx:92-100 | the website row appears exactly when the input is not blank; it links to `ensureHttpsUrl` of the input, which has a scheme; it reads as `stripUrlProtocol` of the input, or as the link when that is empty, and never as `""` |
| Preview.RenderSocial | components/signature-preview.tsx:102-117 | the social row appears exactly when some slot is not blank, and then holds the non-empty list of entries |
| Preview.Render | components/signature-preview.tsx:20-174 | the name line shows the name, or `John Doe`, never empty; each of the logo, title, email (`mailto:`) and phone (`tel:`) rows appears exactly when its field is non-empty; the website and social rows follow the two rules above |
| Preview.WebsiteTextIsHrefWithoutScheme | components/signature-preview.tsx:92-98 | when shown, the website link's target is its text with the input's own scheme, or `https://`, in front |

## Left out

- Clipboard copying is not modelled, including the `execCommand` and selection fallbacks, the "copied" timers and the error logging (app/page.tsx:105-157 and 186-207). It is browser I/O.
- `window.location` is not modelled. Decoding takes the query as a list of name-value pairs, already split and percent-decoded. `BuildShareUrl` takes the origin and path as a parameter.
- Percent-encoding is not modelled. `Params.Query` joins `name=value` with `&` and writes every character as it is. The form-urlencoded serialiser behind `URLSearchParams.toString` leaves only ASCII letters, digits and `*-._` unchanged: it writes a space as `+` and escapes every other character, including the `:` and `/` of URL values.
- React is not modelled: `useState`, `useEffect`, re-rendering, and the handlers' mix of `prev` and the `formData` closure. Each handler is a function from one record to the next.
- Markup and styling are not modelled: the JSX, the inline styles, the logo's border and padding, the title margin, the `Logo` alt text and the `/placeholder.svg` fallback. The last is unreachable, because the logo cell appears only for a non-empty logo.
- components/signature-form.tsx, app/layout.tsx and `cn` are not part of this model.
- Signature.HandleInputChange: the field name is one of the six form fields (an enum). The source accepts any string key and would add an unknown property.
- Signature.HandleSocialChange: requires `index < |socialIcons|`. Writing past the end of a JavaScript array would lengthen it with holes.
- Codec.Decode, Codec.DecodeParams, Codec.EncodePairs and Codec.BuildShareUrl: require a record with exactly three slots, the only shape the page creates. For other lengths the source's `forEach` would emit more or fewer slot keys.
- Utils.SchemeLength: the regular expression's `i` flag is modelled as ASCII case folding. Without the `u` flag, JavaScript never folds a non-ASCII character onto an ASCII one, so for this pattern the two agree.
- Utils.EnsureHttpsUrl and Utils.StripUrlProtocol: inputs are strings. The `?.`/`??` handling of `null` or `undefined` is not modelled.
