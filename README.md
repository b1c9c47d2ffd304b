# WiFi card generator — Dafny model

This project models the logic of a single-page WiFi card generator. The user types a
network's SSID, password and security type, and can mark the network as hidden. The
page derives three things from these fields:

- the `WIFI:` string that the card's QR code encodes;
- the texts the card shows (a masked or plain name and password, "Open Network" for
  an open network, optional expiry and information rows);
- a little UI state around them (whether the name is concealed, the download guard,
  the file name, which buttons are enabled, the template and the print size).

Modules, one per concern:

- `Wrappers` (`wrappers.dfy`): the `Option` type, which stands for TypeScript's
  optional props.
- `QrPayload` (`qr_payload.dfy`): the payload builder of `app/page.tsx` as the function
  `Payload`. `Parse` reads that exact shape back. The lemmas connect the two: they
  prove the round trip in both directions, the `WIFI:S:` … `;;` framing, and the hidden
  payload as the visible one with `H:true;` inserted.
- `ColorAlpha` (`color_alpha.dfy`): the colour helper
  `color.replace(/[^,]+(?=\))/, alpha)` of `app/card-templates.tsx`. `IsFirstMatch`
  defines JavaScript's first match as the leftmost start and then the longest run.
  `ReplaceAlpha` computes it and is proved against that definition. The lemmas cover
  hex colours, `rgba(...)` colours and idempotence.
- `CardTemplates` (`card_templates.dfy`): what `BusinessCardTemplate` and
  `ModernCardTemplate` display, as a `CardView` value computed from the props.
- `WifiCardPage` (`wifi_card_page.dfy`): the page's `useState` fields as the class
  `WifiCardForm`. Its setter methods run the effects that depend on the field they
  set. It also holds the download guard and flag, the button rules, the template
  selection, the print layout and the preview.

The payload is modelled as the code writes it, not as the ZXing "WIFI:" convention
prescribes. The convention backslash-escapes `\ ; , :` inside fields and marks an open
network with `T:nopass` or no `T:` field at all; a comment in the code
(`app/page.tsx:51`) suggests an empty `T:` field. The code escapes nothing and
writes `T:NONE`.
Two lemmas show the consequences. `QrPayload.ParsePayload` holds only for fields
without a semicolon. `QrPayload.PasswordForgesHiddenFlag` gives a visible network
whose password makes its payload identical to a hidden network's payload.

## Model

| member | source | states |
|---|---|---|
| `QrPayload.Payload` | app/page.tsx:49-58 | The QR value is empty exactly when the SSID is empty, whatever the other fields are. |
| `QrPayload.ParsePayload` | app/page.tsx:53-54 | If the SSID is non-empty and no field holds `;`, the payload reads back as exactly the same SSID, encryption (including `NONE`, verbatim), password and hidden flag. |
| `QrPayload.PayloadOfParse` | app/page.tsx:53-54 | Every string the reader accepts is the payload of the network it reads. So the payload shape is exactly `WIFI:S:<ssid>;T:<enc>;P:<pw>;[H:true;];` with unescaped fields. |
| `QrPayload.PayloadFraming` | app/page.tsx:54 | A non-empty payload starts with `WIFI:S:` and ends with `;;`. |
| `QrPayload.HiddenInsertsFlag` | app/page.tsx:53-54 | The hidden payload is the visible payload with `H:true;` inserted before the final `;`. Nothing else differs. |
| `QrPayload.PasswordForgesHiddenFlag` | app/page.tsx:53-54 | Because fields are not escaped, the visible network (`x`, `p;H:true`, `WPA`) and the hidden network (`x`, `p`, `WPA`) get the same payload. |
| `ColorAlpha.ReplaceAlpha` | app/card-templates.tsx:35 | With no match the colour is unchanged. Otherwise the first match (leftmost start, then longest run of non-commas followed by `)`) is replaced by the alpha text. |
| `ColorAlpha.NoCloseParenUnchanged` | app/card-templates.tsx:28-35 | A colour without `)`, such as a hex colour, is returned unchanged. |
| `ColorAlpha.ReplacesLastComponent` | app/card-templates.tsx:35 | On `head,component)`, the helper replaces exactly the last component. For example, `rgba(219, 234, 254, 1)` becomes `rgba(219, 234, 254,0.3)`. |
| `ColorAlpha.ReplaceAlphaIdempotent` | app/card-templates.tsx:35 | Applying the helper twice with the same non-empty, comma-free alpha gives the same result as applying it once. |
| `CardTemplates.BusinessCard` | app/card-templates.tsx:20-50 | The Business card is headed "WiFi Access". Its gradient starts at the secondary colour, which defaults to `#dbeafe`. |
| `CardTemplates.ModernCard` | app/card-templates.tsx:137-169 | The Modern card is headed "Connect". Its gradient starts at the secondary colour, which defaults to `#eef2ff`. |
| `CardTemplates.NameMaskedWhenConcealed` | app/card-templates.tsx:74 | States the rule of `CardTemplates.NetworkName`: the name line shows the mask exactly when the network is hidden and `showSSID` is off, and otherwise shows the SSID unchanged. The Modern card does the same at line 193. |
| `CardTemplates.PasswordRowRule` | app/card-templates.tsx:77-84 | States the rule of `CardTemplates.PasswordRow`: the password row appears exactly when the password is non-empty. It shows the password exactly when `showPassword` is on, and the mask otherwise. The Modern card does the same at lines 196-206. |
| `CardTemplates.SecurityLabelRule` | app/card-templates.tsx:90 | States the rule of `CardTemplates.SecurityLabel`: the security text is "Open Network" for `NONE` and the encryption verbatim otherwise. The Modern card does the same at line 215. |
| `CardTemplates.OptionalRowsRule` | app/card-templates.tsx:72-110 | The "(hidden)" tag (line 72; Modern: line 191) appears exactly for a hidden network. The expiry row appears exactly when a date is set. Through `CardTemplates.InfoRow`, the information row appears exactly when the text is present and non-empty. |
| `CardTemplates.QrValuePassedThrough` | app/card-templates.tsx:113-121 | Both templates hand `qrValue` to the QR renderer unmodified. |
| `CardTemplates.TemplatesShowSameContent` | app/card-templates.tsx:183-247 | The Modern card shows the same name, tag, password row, security text, expiry, information and QR value as the Business card. |
| `CardTemplates.HexSecondaryGivesFlatGradient` | app/card-templates.tsx:29-35 | With a secondary colour without `)`, both gradient ends are the same colour. This includes both defaults. |
| `CardTemplates.RgbaSecondaryFades` | app/card-templates.tsx:34-35 | With an `rgba(...)` secondary colour, the gradient ends in the same colour with alpha `0.3`. |
| `WifiCardPage.DownloadFileName` | app/page.tsx:128 | The saved file is named `wifi-<ssid>.png`, with the SSID embedded verbatim. |
| `WifiCardPage.SavedFile` | app/page.tsx:125-179 | A file is saved exactly on the primary or the fallback path, and under the same name on both (lines 128 and 164). |
| `WifiCardPage.SelectTemplate` | app/page.tsx:208-215 | `"modern"` selects the Modern card, and every other value selects Business. |
| `WifiCardPage.PortraitSwapsLandscape` | app/page.tsx:523-527 | States the rule of `WifiCardPage.PrintLayout`: landscape prints 4.5in × 2.5in. Portrait prints the same box with width and height swapped, rotated. Any orientation other than `portrait` prints as landscape. |
| `WifiCardPage.WifiCardForm.constructor` | app/page.tsx:21-35 | The initial field values, after the first run of both effects: `showSSID` on, the network not hidden, the QR value empty, no download in progress. |
| `WifiCardPage.WifiCardForm.UpdateQrValue` | app/page.tsx:49-58 | The qrValue effect sets the QR value to `Payload` of the current fields. |
| `WifiCardPage.WifiCardForm.SetSsid` | app/page.tsx:260-265 | Sets the SSID and keeps the QR value in step with it. |
| `WifiCardPage.WifiCardForm.SetPassword` | app/page.tsx:285-291 | Sets the password and keeps the QR value in step with it. |
| `WifiCardPage.WifiCardForm.SetEncryption` | app/page.tsx:270-279 | Sets the encryption and keeps the QR value in step with it. |
| `WifiCardPage.WifiCardForm.SetHiddenNetwork` | app/page.tsx:39-46 | When the hidden flag changes, `showSSID` becomes its negation. Setting the same value leaves `showSSID` alone. The QR value follows the flag. |
| `WifiCardPage.WifiCardForm.ToggleShowPassword` | app/page.tsx:296 | Flips `showPassword`. |
| `WifiCardPage.WifiCardForm.ToggleShowSSID` | app/page.tsx:316-328 | Flips `showSSID`. The button exists only for a hidden network, so a visible network's name is never concealed. |
| `WifiCardPage.WifiCardForm.SetTemplate` | app/page.tsx:381 | Sets the template. |
| `WifiCardPage.WifiCardForm.SetOrientation` | app/page.tsx:395 | Sets the orientation. |
| `WifiCardPage.WifiCardForm.SetAdditionalInfo` | app/page.tsx:337 | Sets the additional information. |
| `WifiCardPage.WifiCardForm.SetPrimaryColor` | app/page.tsx:426 | Sets the primary colour. |
| `WifiCardPage.WifiCardForm.SetSecondaryColor` | app/page.tsx:442 | Sets the secondary colour. |
| `WifiCardPage.WifiCardForm.SetExpirationDate` | app/page.tsx:353-369 | Sets or clears the expiration date. |
| `WifiCardPage.WifiCardForm.DownloadDisabled` | app/page.tsx:480 | Download is disabled exactly when the SSID is empty or a download is in progress. |
| `WifiCardPage.WifiCardForm.PrintDisabled` | app/page.tsx:486 | Print is disabled exactly when the SSID is empty. |
| `WifiCardPage.WifiCardForm.StartDownload` | app/page.tsx:64-67 | The download proceeds exactly when Download is enabled, and then sets `isDownloading` and keeps the SSID of the click in `downloadSsid`. A second click during a download does nothing. |
| `WifiCardPage.WifiCardForm.FinishDownload` | app/page.tsx:69-190 | Whatever the capture does, the flag ends cleared. The saved file is `SavedFile` of the click-time SSID and the outcome, so an SSID edited during the download does not rename the file (`WifiCardPage.EditDuringDownload` shows `wifi-a.png` after an edit to `b`). |
| `WifiCardPage.WifiCardForm.HandleDownload` | app/page.tsx:64-191 | The whole handler is a no-op while Download is disabled: no file, and `downloadSsid` of a download in progress is kept. Otherwise it saves `SavedFile` under the click's SSID. In both cases `isDownloading` ends as it began. |
| `WifiCardPage.WifiCardForm.Preview` | app/page.tsx:218-234 | A card is shown exactly when the SSID is non-empty, in the template that `template` selects, over the props `WifiCardPage.WifiCardForm.Props` builds as at lines 193-206. |
| `WifiCardPage.PreviewEncodesRealNetwork` | app/page.tsx:193-215 | For every non-empty SSID, the card's QR code carries `Payload` of the real network, even when the card shows the masked name. For fields without `;`, it reads back as that network, SSID included. |

## Left out

- `app/card-3d-wrapper.tsx`, the 3D tilt effect, is decorative. It uses floating-point tilt and timers, so it is not modelled. The 3D switch (`app/page.tsx:460`) and the preview's portrait rotation (`app/page.tsx:229`) are left out with it.
- The capture inside `handleDownload` is asynchronous browser I/O: DOM cloning, the 100 ms wait, `html2canvas`, `toDataURL` and the link click. The model replaces it with the `CaptureOutcome` parameter. The two template branches at lines 97-107 clone the same element and are not modelled.
- React's render timing is simplified: each effect runs inside the setter that changes its dependency. So the render in which the QR value is still stale is not modelled.
- The async handler is split into `StartDownload` and `FinishDownload`. Any other operation may run between them: a second click is refused by `StartDownload`, and an edit of the SSID does not change the file name. Other fields the capture reads from the DOM are not modelled.
- `window.print`, the toasts and `console.error` have no effect on the modelled state. The print stylesheet is modelled only for the box size and rotation.
- The QR encoding itself (`QRCodeSVG`) and date formatting (`date-fns` `format`) are foreign libraries. The calendar's rule against past dates needs the wall clock. None of these is modelled: a card carries the QR text and the `Date` value.
- Layout, CSS classes, icons, the per-template label texts ("NETWORK NAME"/"NETWORK", "EXPIRES"/"VALID UNTIL") and the other uses of the colour helper are not modelled. The other uses are the badge background and the 0.7-alpha text colours. They apply the same `ReplaceAlpha`.
- The security select offers only `WPA`, `WEP` and `NONE`. The model accepts any encryption string, as the templates' props type does.
- `isHiddenNetwork` is truthy only when `Some(true)`. The page always passes every prop, so `None` arises only for other callers.
- Escaping of reserved characters and a `nopass`, empty or missing `T:` field for open networks are not modelled, because the code does none of these.
