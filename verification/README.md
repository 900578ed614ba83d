# Sticker Mule laptop-lid visualizer, modelled in Dafny

The system lets a visitor paste Sticker Mule product links and arrange the
stickers on a picture of a 14" MacBook Pro lid. A Next.js client does the
arranging. A Go server reads a product page and returns its image and
physical size, and it stores arranged sessions in PostgreSQL.

This project models the core of both halves as pure functions over immutable
data:

- **Client**
  - the product-URL recogniser both forms use (`ProductUrl`);
  - the landing form, which percent-encodes the URL into the visualizer link (`HomePage`, `UriComponent`);
  - the "add sticker" form (`AddStickerForm`);
  - the visualizer's sticker list and position map: add, remove, move up/down, position updates, rendering order and lid coverage (`Arrangement`);
  - the save and load of a session (`SessionCodec`);
  - the management panel (`Management`);
  - the draggable sticker's scale, display size, drag bounds and drag commit (`Geometry`).
- **Server**
  - the HTML path helpers (`Html`);
  - the product-page scraper and fetcher (`ProductPage`);
  - the scraper's command-line twin (`Probe`);
  - the HTTP handlers (`Handlers`) and the CORS wrapper (`Cors`);
  - the session table (`SessionTable`);
  - the migration runner (`Migrations`);
  - configuration and client construction (`DbConfig`).

Calls into code that is not modelled are parameters of the functions that
make them. A property holds whatever they return unless its row names an
assumption about what a call returns:

- the HTTP GET, `html.Parse` and `url.Parse`;
- `strconv.ParseFloat`;
- JSON decoding;
- the session service;
- the id generator;
- failures of the database steps.

Numbers are `real`. The one 32-bit conversion is written out (`DbConfig.Int32`).

## Model

| member | source | states |
|---|---|---|
| Text.Trim | client/src/app/visualizer/components/AddSticker.tsx:33 | the trimmed string never starts or ends with white space, and it is empty exactly when the input is all white space |
| Text.TrimPadded | client/src/app/visualizer/components/AddSticker.tsx:33 | trimming white-space padding off a string whose ends are not white space gives that string back |
| Text.ContainsWitness | server/internal/services/sticker.go:147 | when `strings.Contains` holds, the substring occurs at some position |
| Text.ContainsAt | server/internal/services/sticker.go:147 | a substring found at any position makes `strings.Contains` hold |
| Geometry.Scale | client/src/app/visualizer/components/DraggableSticker.tsx:39-41 | the pixels-per-inch scale is at most each axis scale and equals one of them |
| Geometry.DisplaySize | client/src/app/visualizer/components/DraggableSticker.tsx:43-44 | a sticker no wider or taller than the lid is drawn no wider or taller than the container; with `Geometry.LidFillsContainer` and `Geometry.SharedScale` its drawn size is its inches times the scale at which the lid fills the container |
| Geometry.DragBounds | client/src/app/visualizer/components/DraggableSticker.tsx:47-52 | a sticker dragged to the right or bottom bound touches the container edge, and the bounds are non-negative when the sticker fits on the lid |
| Geometry.AspectRatioPreserved | client/src/app/visualizer/components/DraggableSticker.tsx:39-44 | the drawn rectangle keeps the sticker's own width-to-height ratio |
| Geometry.SharedScale | client/src/app/visualizer/components/DraggableSticker.tsx:39-44 | all stickers on one container are drawn at the same pixels per inch, so their relative sizes are true |
| Geometry.LidFillsContainer | client/src/app/visualizer/components/DraggableSticker.tsx:39-44 | the 12.3 x 8.5 inch lid is drawn within the container on both axes and fills it on at least one, which fixes the scale every sticker is drawn at |
| Geometry.ScaleMonotone | client/src/app/visualizer/components/DraggableSticker.tsx:39-41 | a larger container never gives a smaller scale |
| Geometry.DisplaySizeMonotone | client/src/app/visualizer/components/DraggableSticker.tsx:43-44 | a larger container never draws a sticker smaller |
| Geometry.DisplaySizeExample | client/src/app/visualizer/components/DraggableSticker.tsx:36-52 | a 3 x 2 inch sticker on a 1230 x 850 pixel container is drawn 300 x 200 and may move 930 right and 650 down |
| Geometry.Mount | client/src/app/visualizer/components/DraggableSticker.tsx:30 | a mounted sticker starts from the position the parent passed it |
| Geometry.HandleDrag | client/src/app/visualizer/components/DraggableSticker.tsx:54-58 | after a drag the local position is the dragged point, and the parent, when it listens, is told that same point under the sticker's id |
| Arrangement.FindIndex | client/src/app/visualizer/components/StickerVisualizer.tsx:110 | the index is the first sticker with the id, and it is -1 exactly when no sticker has the id |
| Arrangement.FindIndexUnique | client/src/app/visualizer/components/StickerVisualizer.tsx:110 | with unique ids, looking up a sticker's id finds that sticker's index |
| Arrangement.Add | client/src/app/visualizer/components/StickerVisualizer.tsx:134-136 | the new sticker goes on top; the stickers below and the position map are unchanged |
| Arrangement.Without | client/src/app/visualizer/components/StickerVisualizer.tsx:100 | a sticker is kept exactly when it was on the list and does not carry the id |
| Arrangement.Remove | client/src/app/visualizer/components/StickerVisualizer.tsx:99-106 | every sticker with the id leaves the list and its position is forgotten; every other sticker and position stays |
| Arrangement.WithoutAppend | client/src/app/visualizer/components/StickerVisualizer.tsx:100 | removal keeps the relative order of the remaining stickers |
| Arrangement.WithoutAbsent | client/src/app/visualizer/components/StickerVisualizer.tsx:100 | removing an id that is not on the list changes nothing |
| Arrangement.WithoutPresent | client/src/app/visualizer/components/StickerVisualizer.tsx:100 | with unique ids, removing a present sticker closes the gap and shortens the list by exactly one |
| Arrangement.RemoveUndoesAdd | client/src/app/visualizer/components/StickerVisualizer.tsx:99-106 | adding a sticker with a fresh id and then removing it restores the visualizer state |
| Arrangement.AddKeepsUniqueIds | client/src/app/visualizer/components/StickerVisualizer.tsx:134-136 | adding a sticker with a fresh id keeps ids unique |
| Arrangement.WithoutKeepsUniqueIds | client/src/app/visualizer/components/StickerVisualizer.tsx:100 | removal keeps ids unique |
| Arrangement.Swap | client/src/app/visualizer/components/StickerVisualizer.tsx:116 | the two entries trade places, every other entry stays, and the list is a permutation of the old one |
| Arrangement.SwapKeepsUniqueIds | client/src/app/visualizer/components/StickerVisualizer.tsx:116 | exchanging two stickers keeps ids unique |
| Arrangement.MoveUp | client/src/app/visualizer/components/StickerVisualizer.tsx:108-119 | the sticker trades places with the one above it, or nothing changes when it is on top; positions are untouched and the list is a permutation of the old one |
| Arrangement.MoveDown | client/src/app/visualizer/components/StickerVisualizer.tsx:121-132 | the sticker trades places with the one below it, or nothing changes when it is at the bottom; positions are untouched and the list is a permutation of the old one |
| Arrangement.MoveDownUndoesMoveUp | client/src/app/visualizer/components/StickerVisualizer.tsx:108-132 | with unique ids, moving a sticker that is not on top up and then down restores the state |
| Arrangement.MoveUpUndoesMoveDown | client/src/app/visualizer/components/StickerVisualizer.tsx:108-132 | with unique ids, moving a sticker that is not at the bottom down and then up restores the state |
| Arrangement.MoveUpExample | client/src/app/visualizer/components/StickerVisualizer.tsx:108-119 | on stickers A, B, C, moving A up gives B, A, C |
| Arrangement.MoveDownExample | client/src/app/visualizer/components/StickerVisualizer.tsx:121-132 | on B, A, C, moving C down gives B, C, A |
| Arrangement.RemoveExample | client/src/app/visualizer/components/StickerVisualizer.tsx:99-106 | on B, C, A, removing B leaves C, A |
| Arrangement.SetPosition | client/src/app/visualizer/components/StickerVisualizer.tsx:92-97 | the id now maps to the new point; the sticker list and every other id's position are unchanged |
| Arrangement.SetPositionLastWins | client/src/app/visualizer/components/StickerVisualizer.tsx:92-97 | of two position changes for one id, only the later one counts |
| Arrangement.SetPositionCommutes | client/src/app/visualizer/components/StickerVisualizer.tsx:92-97 | position changes for different ids may happen in either order |
| Arrangement.DragCommitsToStore | client/src/app/visualizer/components/DraggableSticker.tsx:54-58 | a drag reported to the visualizer leaves its position map agreeing with the sticker's own local position |
| Arrangement.Render | client/src/app/visualizer/components/StickerVisualizer.tsx:232-245 | nothing is drawn until both container sides are positive; then every sticker is drawn in list order with its recorded position, and the sticker at list index i gets z-index 10 + i, so later stickers are drawn above earlier ones |
| Arrangement.TotalAreaAppend | client/src/app/visualizer/components/StickerVisualizer.tsx:262-264 | the summed area of two lists is the sum of their areas |
| Arrangement.Coverage | client/src/app/visualizer/components/StickerVisualizer.tsx:261-264 | the summed sticker area as a percentage of the lid's area; `Arrangement.CoverageAfterAdd`, `Arrangement.CoverageAfterMoveUp`, `Arrangement.CoverageAfterMoveDown` and `Arrangement.TotalAreaWithout` fix how each edit changes it |
| Arrangement.TotalAreaNonNegative | client/src/app/visualizer/components/StickerVisualizer.tsx:262-264 | stickers of non-negative size cover a non-negative area |
| Arrangement.CoverageAfterAdd | client/src/app/visualizer/components/StickerVisualizer.tsx:261-264 | adding a sticker raises the coverage by exactly its share of the lid |
| Arrangement.TotalAreaSwapNeighbours | client/src/app/visualizer/components/StickerVisualizer.tsx:262-264 | exchanging neighbours keeps the summed area |
| Arrangement.CoverageAfterMoveUp | client/src/app/visualizer/components/StickerVisualizer.tsx:261-264 | moving a sticker up does not change the coverage |
| Arrangement.CoverageAfterMoveDown | client/src/app/visualizer/components/StickerVisualizer.tsx:261-264 | moving a sticker down does not change the coverage |
| Arrangement.TotalAreaWithout | client/src/app/visualizer/components/StickerVisualizer.tsx:262-264 | removing stickers never raises the covered area |
| SessionCodec.Encode | client/src/app/visualizer/components/StickerVisualizer.tsx:151-157 | one record per sticker in list order, carrying its id, image and size, with its recorded position or the origin |
| SessionCodec.SaveRequest | client/src/app/visualizer/components/StickerVisualizer.tsx:148-159 | the save body names the session and holds exactly the session's records: one per sticker in list order, with its recorded position or the origin |
| SessionCodec.SaveThenLoadSession | client/src/app/visualizer/components/StickerVisualizer.tsx:48-76 | loading back the records the save button sent shows the saved list, each sticker at its saved position or the origin, with no error, whatever was shown before |
| SessionCodec.DecodePositions | client/src/app/visualizer/components/StickerVisualizer.tsx:54-63 | the loaded map has one entry per record id, and each entry holds the position of the last record with that id |
| SessionCodec.Decode | client/src/app/visualizer/components/StickerVisualizer.tsx:54-66 | the loaded list has one sticker per record in record order, and positions exist exactly for the record ids |
| SessionCodec.Load | client/src/app/visualizer/components/StickerVisualizer.tsx:48-76 | a successful load replaces the state with the decoded session; a failure keeps the state and shows the error message or "Unknown error occurred" |
| SessionCodec.DecodeEncode | client/src/app/visualizer/components/StickerVisualizer.tsx:54-63 | save then load gives back the same list, with every listed sticker's position and the origin for those without one |
| SessionCodec.EncodeDecode | client/src/app/visualizer/components/StickerVisualizer.tsx:151-157 | with unique ids, load then save reproduces the records exactly |
| SessionCodec.DuplicateIdsLoseAPosition | client/src/app/visualizer/components/StickerVisualizer.tsx:62 | with two records for one id, load then save cannot reproduce both positions |
| Management.IdLabel | client/src/app/visualizer/components/StickerManagement.tsx:41 | the label is the id's first eight characters, or the whole of a shorter id |
| Management.LayerLabel | client/src/app/visualizer/components/StickerManagement.tsx:43 | the first row is "Top", the last row of several is "Bottom", and every row between shows its layer number, which lies strictly between 1 and the count |
| Management.Panel | client/src/app/visualizer/components/StickerManagement.tsx:19-81 | the panel is hidden for at most one sticker; otherwise it lists every sticker top layer first, labels each row with its id's first eight characters, labels row i of n Top (i = 0), Bottom (i = n - 1) or n - i, numbers it n - i, always offers remove, offers up on all but the first row and down on all but the last |
| Management.RowsAreReversedList | client/src/app/visualizer/components/StickerManagement.tsx:29-34 | each sticker appears on exactly one row, and its number is its list position counted from 1 |
| Management.RowNumbersFollowZOrder | client/src/app/visualizer/components/StickerManagement.tsx:29-43 | a row nearer the top of the panel names a sticker drawn above the ones listed after it |
| Management.UpShownIffMoveUpChanges | client/src/app/visualizer/components/StickerManagement.tsx:50-58 | with unique ids, the up button appears on a row exactly when pressing it would change the order |
| Management.DownShownIffMoveDownChanges | client/src/app/visualizer/components/StickerManagement.tsx:60-68 | with unique ids, the down button appears on a row exactly when pressing it would change the order |
| Management.MoveUpRaisesRow | client/src/app/visualizer/components/StickerManagement.tsx:50-58 | pressing up moves the sticker one row nearer the top of the panel |
| Management.MoveDownLowersRow | client/src/app/visualizer/components/StickerManagement.tsx:60-68 | pressing down moves the sticker one row further down the panel |
| Management.PanelExample | client/src/app/visualizer/components/StickerManagement.tsx:29-78 | three stickers are listed top first as Top, 2, Bottom, with the buttons the first and last rows omit |
| ProductUrl.Parse | client/src/app/visualizer/components/AddSticker.tsx:21-22 | every accepted URL is spelled by a scheme, a slash-free store, digits and an optional query free of line terminators |
| ProductUrl.ParseBuild | client/src/app/visualizer/components/AddSticker.tsx:21 | every such spelling is accepted and split back into its pieces |
| ProductUrl.MatchesIffBuilt | client/src/app/visualizer/components/AddSticker.tsx:21 | the pattern accepts a URL exactly when some well-formed pieces spell it |
| ProductUrl.ValidateIsMatch | client/src/app/visualizer/components/AddSticker.tsx:18-26 | the blank check adds nothing to the pattern test |
| ProductUrl.ValidateUrl | client/src/app/visualizer/components/AddSticker.tsx:18-26 | a URL is valid when it is not blank after trimming and matches the product pattern; `ProductUrl.ValidateIsMatch` shows the pattern alone decides, and `ProductUrl.MatchesIffBuilt` gives the pattern's language |
| ProductUrl.PaddedUrlRejected | client/src/app/page.tsx:15-25 | a URL that starts with white space or ends with a line terminator never matches |
| ProductUrl.SampleUrlMatches | client/src/app/visualizer/components/Info.tsx:27 | the first example link of the instructions is accepted |
| ProductUrl.SampleUrlWithQueryMatches | client/src/app/visualizer/components/Info.tsx:28 | the example link with a query string is accepted |
| ProductUrl.PlainHttpMatches | client/src/app/visualizer/components/AddSticker.tsx:21 | the client accepts plain `http` links |
| UriComponent.Encode | client/src/app/page.tsx:40 | the encoding uses only unreserved characters and `%XX` escapes, and it leaves a string of unreserved characters as it is |
| UriComponent.DecodeEncode | client/src/app/page.tsx:40 | decoding the encoding of any string gives back that string |
| UriComponent.EncodeInjective | client/src/app/page.tsx:40 | different strings have different encodings |
| UriComponent.SeparatorsEscaped | client/src/app/page.tsx:40 | no `:`, `/`, `?`, `#`, `=`, `&`, `+` or space survives encoding |
| AddStickerForm.Submit | client/src/app/visualizer/components/AddSticker.tsx:29-59 | the trimmed input is looked up only if it matches; a successful lookup adds a sticker with the fresh id and clears the form; otherwise the input stays with the right error message |
| AddStickerForm.Apply | client/src/app/visualizer/components/AddSticker.tsx:48 | the visualizer appends the handed-over sticker and otherwise stays as it was |
| AddStickerForm.PaddingTolerated | client/src/app/visualizer/components/AddSticker.tsx:33-38 | a matching URL typed with white space around it is looked up without the padding |
| AddStickerForm.SubmitAddsAtMostOne | client/src/app/visualizer/components/AddSticker.tsx:35-55 | a submission adds one sticker on top exactly when the trimmed input matches and the lookup succeeds, and none otherwise |
| AddStickerForm.FreshIdKeepsIdsUnique | client/src/app/visualizer/components/AddSticker.tsx:43-46 | a fresh id keeps sticker ids unique |
| HomePage.Submit | client/src/app/page.tsx:27-40 | the browser navigates exactly for a valid URL, to the visualizer path; any other input gives "The url is not valid" |
| HomePage.NavigationCarriesUrl | client/src/app/page.tsx:31-40 | navigation happens exactly for a matching URL, and its parameter decodes back to the URL typed |
| HomePage.ParameterStaysWhole | client/src/app/page.tsx:40 | the encoded parameter holds no `&`, `=`, `?`, `#`, `/` or space, so it cannot end early or start another parameter, and no `+` that would be read back as a space |
| HomePage.LeadingSpaceRejected | client/src/app/page.tsx:31-34 | the landing page does not trim, so a URL typed after a space is refused |
| HomePage.FormsDisagreeOnPadding | client/src/app/page.tsx:31 | a padded matching URL is looked up by the visualizer's form but refused by the landing form |
| Html.First | server/internal/utils/html.go:17-30 | the index is the first element satisfying the test, and it is -1 exactly when none does |
| Html.BFS | server/internal/utils/html.go:16-31 | a direct child matching the tag and attribute is found exactly when one exists; the first is returned; otherwise the error is "node not found" |
| Html.Traverse | server/internal/utils/html.go:33-45 | an empty path returns the start node, a found node matches the last step, and every failure is "node not found" |
| Html.TraverseAppend | server/internal/utils/html.go:33-45 | following a path p + q is following p, then q from where p ends |
| Html.TraverseOne | server/internal/utils/html.go:33-45 | a one-step path is a single child search |
| Html.TraverseStopsAtFailure | server/internal/utils/html.go:33-45 | once a prefix of the path fails, the whole path fails with the same error |
| Html.EmptyTargetMatchesAnyValue | server/internal/utils/html.go:23-24 | a step with an empty target value needs only some attribute with that key |
| Html.GetAttr | server/internal/utils/html.go:47-54 | the value of an attribute with the key is found exactly when one exists; otherwise the error is "attribute not found" |
| Html.GetTextContent | server/internal/utils/html.go:56-63 | the text of a text child is found exactly when one exists; otherwise the error is "text not found" |
| ProductPage.Fields | server/internal/services/sticker.go:99-101 | every field is non-empty and free of the multiplication sign |
| ProductPage.FieldsKeepEverythingElse | server/internal/services/sticker.go:99-101 | the fields together hold every other character of the text, in order |
| ProductPage.LeadingSeparatorsIgnored | server/internal/services/sticker.go:99-101 | separators at the start produce no empty field |
| ProductPage.FieldsOfJoin | server/internal/services/sticker.go:99-101 | non-empty sign-free parts joined by the sign split back into those parts |
| ProductPage.FieldsOfSpaced | server/internal/services/sticker.go:99-101 | runs of signs collapse: non-empty sign-free parts, each followed by a run of signs (at least one between parts, any number after the last), split back into those parts |
| ProductPage.GetImgUrl | server/internal/services/sticker.go:41-59 | the image URL is the first `src` value of the `img` element the image path reaches; a missing step gives "node not found", an image without `src` gives "attribute not found" |
| ProductPage.GetProductType | server/internal/services/sticker.go:61-78 | the product type is the text of the first text child of the element the type path reaches; a missing step gives "node not found", no text child gives "text not found" |
| ProductPage.CleanDropsUnit | server/internal/services/sticker.go:106-108 | a field ending in "in" loses the unit and then the surrounding space |
| ProductPage.CleanKeepsUnitBeforeSpace | server/internal/services/sticker.go:106-108 | a field with white space after its "in" keeps the unit and only loses the space, because the suffix is tested before the trim |
| ProductPage.SizeFromText | server/internal/services/sticker.go:99-117 | any error comes with zero width and height; a text without exactly two fields is an "unexpected size format" error; two fields are parsed after cleaning, and a parse failure names both results |
| ProductPage.GetSize | server/internal/services/sticker.go:80-118 | a missing size paragraph passes its error on with zero size; otherwise the paragraph's text is read as a size |
| ProductPage.ReadsBothSides | server/internal/services/sticker.go:99-117 | "W × H" is read as the two parsed numbers, or as zeros with an error naming both parse results |
| ProductPage.OneFieldIsUnexpected | server/internal/services/sticker.go:102-104 | a text with no sign, or with a number on only one side of it, is an "unexpected size format" error |
| ProductPage.StickerAnyCase | server/internal/services/sticker.go:147-149 | "sticker" in any casing anywhere in the product type makes it a sticker |
| ProductPage.StickerExamples | server/internal/services/sticker.go:147-149 | "Die Cut Stickers" and "STICKER" are stickers and "Magnet" is not |
| ProductPage.PreviewAsWritten | server/internal/services/sticker.go:126-139 | the code panics exactly when the document has fewer than two children; otherwise it searches from the second child |
| ProductPage.Preview | server/internal/services/sticker.go:126-139 | the corrected lookup never panics; a found section lies on the preview path below the `html` element |
| ProductPage.PreviewAgreesWithDoctype | server/internal/services/sticker.go:126-127 | for a page with a doctype followed by `html`, the two lookups agree |
| ProductPage.NoDoctypePanics | server/internal/services/sticker.go:126-127 | a page without a doctype panics as written, but the corrected lookup reports "node not found" |
| ProductPage.FromPreview | server/internal/services/sticker.go:141-168 | extraction succeeds exactly when the type is readable and names a sticker and the image and size are readable; it then returns that image and size |
| ProductPage.CheckOrder | server/internal/services/sticker.go:141-161 | checks run as type, sticker check, image, size, and the first failure is the one reported |
| ProductPage.ExtractAsWritten | server/internal/services/sticker.go:120-169 | a parse error is passed on, and the run panics exactly for a parsed document with fewer than two children |
| ProductPage.Extract | server/internal/services/sticker.go:120-169 | a parse error is passed on and nothing panics |
| ProductPage.FetchAsWritten | server/internal/services/sticker.go:22-39 | a GET error is passed on, a non-200 reply returns the empty product with no error, and a 200 reply is read and extracted |
| ProductPage.FetchProductInfo | server/internal/services/sticker.go:22-39 | success needs a 200 reply with a readable body and returns its extraction; a non-200 reply is reported as that status; nothing panics |
| ProductPage.NotFoundLooksLikeSuccess | server/internal/services/sticker.go:29-31 | a 404 reply yields the empty product as success as written, and a status error once corrected |
| Probe.ProbeGetSize | server/test.go:54-93 | the probe's size reader agrees with the service's and prints the size text when it finds one |
| Probe.SizeReport | server/test.go:146-152 | the printed size text comes first, then either the size line or the error line |
| Probe.Report | server/test.go:130-152 | image, then type, then size are printed, stopping at the first error; the last line is a size line exactly when all three succeed |
| Probe.FromPreview | server/test.go:130-152 | only the last line can be an error, and it is a size line exactly when image, type and size are all readable |
| Probe.Probe | server/test.go:95-153 | the run panics exactly when the page is fetched, read and parsed but has fewer than two top-level children; otherwise only its last line can be an error |
| Probe.StatusIgnored | server/test.go:96-106 | two replies with the same body print the same lines, whatever their status codes |
| Probe.ImageCheckedBeforeType | server/test.go:130-144 | when image and type both fail, the probe reports the image and the service reports the type |
| Probe.NoStickerFilter | server/test.go:138-152 | a readable page of another product is printed in full by the probe but refused by the service |
| Probe.AgreesWithServiceOnSuccess | server/test.go:130-152 | where the service succeeds, the probe prints the same image and the same size |
| Handlers.ServerPathOf | server/internal/handlers/sticker.go:33-34 | every slash-free store and digit string spell an accepted path |
| Handlers.ServerPathSplits | server/internal/handlers/sticker.go:33-34 | every accepted path is spelled by a slash-free store and a digit string |
| Handlers.TrailingSlashRefused | server/internal/handlers/sticker.go:33-34 | a slash after the item number is refused |
| Handlers.SecureClientUrlAccepted | server/internal/handlers/sticker.go:23-35 | an `https` link the client accepts passes the server check when its store segment holds no `?`, `#` or `%`, no ASCII control character appears in it, and its query holds no `#`, assuming `url.Parse` reports `https`, the host, and the path up to the first `?` or `#` |
| Handlers.ControlCharacterRefused | server/internal/handlers/sticker.go:23-27 | the link `https://www.stickermule.com/a<TAB>b/item/1` is accepted by the client pattern and refused by the server once `url.Parse` rejects the control character |
| Handlers.CutAtQuery | server/internal/handlers/sticker.go:24-34 | for a store segment without `?` or `#`, the path `url.Parse` keeps from a client link is exactly `/store/item/digits`, whatever query follows |
| Handlers.QueryMarkInStoreRefused | server/internal/handlers/sticker.go:23-35 | the link `https://www.stickermule.com/a?b/item/1` is accepted by the client pattern and refused by the server check, because the path `url.Parse` keeps is `/a` |
| Handlers.PathBeforeQuery | server/internal/handlers/sticker.go:24 | the path kept is a prefix of the text after the host, holds no `?` or `#`, and stops only at the end or at the first `?` or `#` |
| Handlers.ValidateStickerMuleUrl | server/internal/handlers/sticker.go:23-35 | a link passes exactly when it parses, its scheme is `https`, its host is `www.stickermule.com` and its path matches `^/[^/]+/item/\d+$`; `Handlers.SecureClientUrlAccepted`, `Handlers.PlainHttpRefused` and `Handlers.QueryMarkInStoreRefused` pin it against the client pattern |
| Handlers.PlainHttpRefused | server/internal/handlers/sticker.go:29-31 | an `http` link the client accepts never passes the server check, assuming `url.Parse` reports its scheme as `http` |
| Handlers.ProcessStickerUrl | server/internal/handlers/sticker.go:37-63 | non-POST gets 405; the lookup runs exactly for a decodable body holding a valid link; 400 means the body or the link was bad; 200 carries the product; 500 means the lookup failed; a panic drops the connection |
| Handlers.PlainHttpNeverFetched | server/internal/handlers/sticker.go:49-52 | an `http` product link is answered 400 without a lookup |
| Handlers.SaveSession | server/internal/handlers/session.go:21-42 | non-POST gets 405, an undecodable body gets 400, and otherwise the store is called with the decoded request, giving 200 "success" or 500 |
| Handlers.QueryGet | server/internal/handlers/session.go:51 | a missing key reads as empty, and a repeated key as its first value |
| Handlers.GetSession | server/internal/handlers/session.go:44-67 | non-GET gets 405, a missing or empty `sessionId` gets 400, and otherwise the store is asked for that id, giving 200 with its stickers or 500 |
| Handlers.SessionIdParameter | server/internal/handlers/session.go:51-55 | `sessionId=` counts as missing, and only the first of repeated values is used |
| Cors.CorsHeaders | server/internal/middleware/cors.go:7-15 | only the two allowed origins are echoed; methods and headers are always announced; no other header changes |
| Cors.Serve | server/internal/middleware/cors.go:5-24 | OPTIONS is answered 200 without calling the handler; every other request calls the handler once and returns its response |
| Cors.OtherOriginsNotEchoed | server/internal/middleware/cors.go:10-12 | another origin, or none, gets no allow-origin header |
| Cors.PreflightAnsweredByWrapper | server/internal/middleware/cors.go:17-20 | a preflight is answered 200 by the wrapper, although the handler alone would refuse it with 405 |
| SessionTable.RowsOf | server/internal/db/client.go:96-119 | one row per sticker, in request order, under the request's session id |
| SessionTable.StickersOf | server/internal/db/client.go:142-157 | one sticker per row, in row order |
| SessionTable.OthersKeepsOtherSession | server/internal/db/client.go:90-93 | deleting one session's rows keeps every other session's rows, in order |
| SessionTable.SaveSession | server/internal/db/client.go:81-127 | a failed save leaves the table as it was; success needs every step to succeed (inserts only when there are stickers); then the session holds exactly the request's rows, for values the INTEGER columns store exactly, and other sessions are untouched |
| SessionTable.GetSession | server/internal/db/client.go:129-166 | the query, the scan of each row and the iteration must succeed; a session without rows reads as nil; otherwise the stickers of its rows are returned |
| SessionTable.SaveThenLoad | server/internal/db/client.go:81-166 | loading right after saving gives back the saved stickers (nil for none) |
| SessionTable.OtherSessionsUntouched | server/internal/db/client.go:90-93 | saving one session, failed or not, does not change what another session loads |
| SessionTable.SaveEmptyClears | server/internal/db/client.go:90-119 | saving an empty list removes the session's rows, so loading it gives nil |
| SessionTable.SaveIdempotent | server/internal/db/client.go:81-127 | saving the same request twice leaves the table as saving it once |
| Migrations.RunMigration | server/internal/db/migrations.go:70-111 | a recorded version is skipped; otherwise the change and its record are applied together or not at all; success leaves the version recorded |
| Migrations.RunAll | server/internal/db/migrations.go:42-46 | records and applied changes only grow, and grow together; on success every migration is recorded |
| Migrations.InitializeDatabase | server/internal/db/migrations.go:9-49 | failing to create the migrations table changes nothing; on success versions 1 and 2 are recorded |
| Migrations.RunAllSkipsRecorded | server/internal/db/migrations.go:78-81 | with every version already recorded, a run changes nothing |
| Migrations.InitializeIdempotent | server/internal/db/migrations.go:9-49 | running the migrations again after a successful run changes nothing, whatever the transactions would do |
| Migrations.RunAllAppliesInOrder | server/internal/db/migrations.go:42-46 | with distinct versions and no failure, exactly the unrecorded migrations are applied, in list order |
| Migrations.FreshDatabase | server/internal/db/migrations.go:14-40 | a new database gets the sessions table, then the column drop, and records versions 1 and 2 |
| Migrations.StopsAtFirstFailure | server/internal/db/migrations.go:42-46 | the run stops at the first failing migration, keeps the earlier ones, and reports "failed to run migration N" |
| DbConfig.GetEnvOrDefault | server/internal/db/config.go:33-38 | a variable's value is used when it is non-empty, and the default otherwise |
| DbConfig.EmptyCountsAsUnset | server/internal/db/config.go:34 | a variable set to the empty string reads like one that is not set |
| DbConfig.NewConfig | server/internal/db/config.go:19-31 | each setting comes from its variable or its default, and the pool limits are 25, 5 and 30 minutes |
| DbConfig.EmptyEnvironmentDefaults | server/internal/db/config.go:21-29 | with nothing set, every setting is its default |
| DbConfig.ConnectionNameSplits | server/internal/db/client.go:32 | a project and a region without colons can be read back from the connection name |
| DbConfig.ConnectionNameInjective | server/internal/db/client.go:32 | different colon-free projects, regions or instances give different connection names |
| DbConfig.Int32 | server/internal/db/client.go:53-54 | the conversion is congruent to its argument modulo 2^32, lies in the 32-bit range, and is the identity on that range |
| DbConfig.NewClient | server/internal/db/client.go:20-73 | a missing project or instance fails before any dialling; otherwise every connection step must succeed, and the client gets the connection name, the DSN and the converted pool limits |
| DbConfig.MissingSettingsFail | server/internal/db/client.go:21-23 | without a project or an instance in the environment, no client is made, whatever the network would do |
| DbConfig.PoolLimits | server/internal/db/client.go:53-55 | a client made from the environment is configured with a pool maximum of 25 connections, a minimum of 5 and a 30-minute lifetime |

## Left out

- Rendering, styling and the presentational pages are not modelled. This covers the header, footer, hero, instructions, info panel and result page. It also covers the visualizer page's `sessionId` guard and the copy-URL button.
- Floating-point arithmetic is not modelled. JavaScript numbers and Go `float64` are `real`, so the scale, display size and coverage are exact.
- The coverage's `toFixed(1)` formatting is left out. `Arrangement.Coverage` is the unrounded percentage.
- The drag library's clamping to the bounds is left out. The model hands the bounds over (`Geometry.DragBounds`) and records whatever point the library reports.
- `Arrangement.MoveUp` and `Arrangement.MoveDown` require the id to be on the list. For an absent id, JavaScript's `findIndex` returns -1. On an empty list move-up returns the list as it was, since -1 is the last index there. On a non-empty list move-up writes `undefined` into index 0 and parks the first sticker under the array's non-index property "-1"; a list with a hole cannot be expressed over `seq<Sticker>`. Move-down exchanges the non-index properties "-1" and "-2", both `undefined`, so the listed stickers stay as they were. The panel only calls them with listed ids.
- The id generator (`crypto.randomUUID`) is a parameter. Its freshness is an assumption of `AddStickerForm.FreshIdKeepsIdsUnique`.
- The loading flags and the error strings' display timing are left out. The add form's submit button state is `AddStickerForm.SubmitEnabled` and the save button's is `SessionCodec.SaveEnabled`. Both are predicates without a contract.
- `UriComponent.Encode` treats every character as a Unicode scalar value. A lone surrogate, which makes `encodeURIComponent` throw, cannot occur in a Dafny string.
- `AddStickerForm.PaddingTolerated` needs a URL that does not end in white space. A query ending in spaces loses them, because the form trims before it looks the URL up.
- Several foreign calls are parameters and are not modelled:
  - HTTP (`http.Get`, `io.ReadAll`);
  - `html.Parse`, `url.Parse` and `strconv.ParseFloat`;
  - JSON encoding and decoding;
  - the regular-expression engines.

  A separate hand-written recogniser stands for each pattern (`ProductUrl`, `Handlers.ServerPath`).
- `Handlers.SecureClientUrlAccepted` is stated only for links whose store segment holds no `?`, `#` or `%`, that hold no ASCII control character, and whose query holds no `#`. The client pattern admits all of these, but `url.Parse` ends the path at `?` or `#`, decodes `%` escapes in the path, refuses control characters before the fragment and refuses a malformed escape in the fragment. The server therefore refuses such links (`Handlers.QueryMarkInStoreRefused`, `Handlers.ControlCharacterRefused`). Percent-decoding, the control-character refusal and fragment decoding are not modelled.
- `ProductPage.Times` is read as the multiplication sign U+00D7. The separator literal in `server/internal/services/sticker.go` and `server/test.go` is the bytes C3 83 E2 80 94, which spell the two characters "Ã—". That is '×' encoded in UTF-8 and decoded again as Windows-1252, and Go does not accept two characters in a rune literal.
- `Management.IdLabel` counts Unicode scalar values, while JavaScript's `slice(0, 8)` counts UTF-16 code units. The two agree on the ASCII ids `crypto.randomUUID` produces, and differ only on ids holding characters outside the Basic Multilingual Plane.
- `ProductPage.IsSticker`: `strings.ToLower` is modelled for ASCII letters only. A product type whose "sticker" is spelled with non-ASCII letters that lower-case to ASCII is not recognised by the model.
- Go's `println` formatting of floats is left out. `Probe.Line.SizeLine` carries the two numbers rather than their text.
- The server's `services/session.go` only forwards to the database client, so the handlers take the store as a parameter. `cmd/server/main.go` (routing and start-up) is not part of this model.
- `SessionTable.GetSession` states its result as a multiset of the session's stickers. The query has no ORDER BY, so PostgreSQL promises no row order.
- `SessionTable.SaveSession` and `SessionTable.SaveThenLoad` treat sizes and positions as stored exactly. `SaveThenLoad` requires whole 32-bit numbers for that reason; a session with a fractional size such as 2.5 inches is converted or refused by the database, so it does not come back as saved. The sizes and positions go into INTEGER columns, and the conversion PostgreSQL applies to other values is not modelled.
- An empty session is modelled as `None`. The handler then writes JSON `null` for the sticker list; JSON encoding itself is not modelled.
- `time.Duration` is left out. `DbConfig.Client` keeps the lifetime in minutes.
- Logging is not modelled, nor is `Client.Close`.
- Context cancellation and concurrency are not modelled.
- When a handler panics, `net/http` recovers and drops the connection. The model represents this as the `Dropped` response.

## Findings

| source | as written | input that shows it | evidently intended | confidence | as-written member | corrected member |
|---|---|---|---|---|---|---|
| server/internal/services/sticker.go:29-31 | on a non-200 status the function returns the empty response together with `err`, which is nil at that point | a product URL whose page answers 404 | a non-200 status is reported as an error | high, not executed | ProductPage.FetchAsWritten (shown by ProductPage.NotFoundLooksLikeSuccess) | ProductPage.FetchProductInfo |
| server/internal/services/sticker.go:126-127 | the `html` element is taken to be the document's second child, `doc.FirstChild.NextSibling`; with fewer than two children the nil pointer is dereferenced and the handler panics | a page without a doctype, whose document has the `html` element as its only child | the `html` element is looked up among the document's children | medium, not executed | ProductPage.PreviewAsWritten (shown by ProductPage.NoDoctypePanics) | ProductPage.Preview |
