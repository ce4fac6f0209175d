# school_map_ua — a verified model of its interaction rules

school_map_ua is a React site about Ukraine's regions. It has three
interactive SVG maps:

- a plain map that names the clicked region;
- an adventure map where a user drops pins and sees one card per pin around
  the hovered region;
- a discovery map with a label on every region.

Around the maps there is:

- a region dialog with a quiz;
- a sign-up / sign-in dialog backed by `localStorage`;
- an administrator panel for users, donations and pending pins;
- a first-visit guide;
- a photo carousel;
- toast notifications;
- an API layer with session helpers.

This project models the deterministic rules in those components and proves
what they promise.

## Modules

One Dafny module per source file, plus shared modules:

- `Catalog` — the region catalog with its fill and text fallbacks.
- `Geometry` — boxes, client rectangles and the SVG screen matrix, with its
  inverse.
- `Tooltip` — tooltip placement: always above, or above with a flip below.
- `MapSurface` — the hover state the three maps share. One "currently
  hovered path" reference; every path carries a fill and a filter.
- `Storage` — `localStorage` as a class with a map field.
- `Seqs` — `Array.filter` and its lemmas.
- `StringOrder` — the code-unit string order and sorted duplicate-free
  lists.
- `Common` — `Option`, whitespace, decimal rendering and arithmetic helpers.
- `AdventureCards` — the band layout of the adventure cards.

## How the model is shaped

Component state that handlers update in place is a `class`. Its methods
state the whole new state in `ensures`, and each class keeps a `Valid()`
invariant. Examples:

- the hovered path is the only highlighted one;
- the pins stay indexed by region;
- stored quiz results are the score of the stored answers;
- the carousel and guide cursors stay in range.

Loops in the source are `while` loops with invariants:

- the styling pass over the paths;
- building the box cache and the labels;
- removing and appending labels;
- quiz scoring;
- the multipart form with at most 5 images.

Pure expressions are functions, and lemmas relate them. Examples:

- the band sizes add up to n, and slots are injective;
- a region's pin indexes are exactly 0..k−1;
- adding the labels twice is the same as adding them once;
- the inverse matrix undoes the screen transform;
- the percentage rounds half up and lies in [0, 100];
- the sorted class list is unique;
- removing a fresh toast undoes adding it;
- after saving the session, `isAuthenticated` is truthy unless the token
  is empty.

Things the browser supplies are parameters:

- the DOM boxes, matrices and sizes;
- `Date.now()` and `Math.random()`;
- the outcome of each server call;
- the user's answer to `prompt`.

A path is identified by its position in the SVG's list of `path[name]`
elements. That is the element identity the handlers compare.

## Model

| member | source | states |
|---|---|---|
| Catalog.FillOf | src/App.js:57 | the rest fill is the catalog colour, or `#6f9c76` when the region or its colour is missing; never empty |
| Catalog.TextOf | src/App.js:96 | tooltip text is the catalog text, or the raw path name when the region is unknown |
| Catalog.ClickText | src/App.js:133-135 | the click text is the catalog text for a known region, the raw name otherwise |
| Catalog.UniformFillIsDefault | src/App.js:5-32 | every region of the uniform catalog rests in `#6f9c76`, known or not |
| Catalog.CatalogsAgreeOnText | src/components/DiscoveringUkraine.js:5-32 | the discovery catalog lists the same regions with the same texts as the plain one; only the colours differ |
| Catalog.ClickTextMatchesTooltip | src/App.js:133-135 | with non-empty catalog texts, the alert names a region exactly as its tooltip does |
| Geometry.InverseUndoesApply | src/components/YourAdventures.js:177 | mapping an SVG point to the screen and back through `inverse()` returns it |
| Geometry.ApplyUndoesInverse | src/components/YourAdventures.js:177 | mapping a client point into SVG coordinates and back returns the clicked point |
| Geometry.TopCentre | src/App.js:88-90 | the tooltip anchor is on the box's top edge, equidistant from both sides |
| Geometry.Centre | src/components/DiscoveringUkraine.js:83-84 | the label point is equidistant from opposite edges and lies inside a box of non-negative size |
| Tooltip.Show | src/App.js:96-97 | the tooltip is displayed with the given text and placement |
| Tooltip.Hide | src/App.js:124-126 | hiding changes only the display; text and position stay |
| Tooltip.PlaceAbove | src/App.js:103-104 | the tooltip is centred on the anchor and its bottom sits 15 px above it, relative to the container |
| Tooltip.PlaceFlipping | src/components/YourAdventures.js:121-136 | same horizontal centring; it flips below exactly when the screen top edge would be under 80 or the container top negative; unflipped tops are ≥ 0 and ≥ 80 on screen; flipped tops are box height + 15 below the anchor |
| Tooltip.FlippingRefinesAbove | src/components/YourAdventures.js:121-136 | unflipped, the flipping placement equals the plain map's; `left` never depends on the flip |
| Tooltip.FlipMovesDown | src/components/YourAdventures.js:130-133 | a flipped tooltip is lower than the unflipped one by its height, the box height and two gaps |
| MapSurface.RestStyle | src/App.js:116-117 | the restored style has the catalog fill and no highlight filter |
| MapSurface.StylePaths | src/App.js:52-58 | the styling loop gives every named path its catalog fill |
| MapSurface.HoverSurface.constructor | src/App.js:52-58 | after set-up, no path is hovered or highlighted and every path has its catalog fill |
| MapSurface.HoverSurface.HighlightedIsHovered | src/App.js:67-77 | the highlighted paths are exactly the hovered one, so at most one path is highlighted |
| MapSurface.HoverSurface.Enter | src/App.js:67-77 | a different previously hovered path is restored; the entered path becomes the hovered and only highlighted one |
| MapSurface.HoverSurface.Reload | src/components/YourAdventures.js:51-72 | the set-up effect run again: every path at its catalog fill with no filter, nothing hovered or highlighted |
| MapSurface.HoverSurface.Leave | src/App.js:111-121 | the left path is restored; the hovered reference is cleared only if it was that path; the highlight set loses that path |
| App.PlainMap.constructor | src/App.js:52-58 | every path of the plain map starts in `#6f9c76` with nothing hovered |
| App.PlainMap.MouseOver | src/App.js:61-108 | no path ancestor: nothing changes; otherwise the highlight moves to the path and the tooltip shows its text above it |
| App.PlainMap.MouseOut | src/App.js:111-127 | no path ancestor: nothing changes; otherwise the path is restored, the reference cleared if it matches, and the tooltip hidden |
| App.PlainMap.Click | src/App.js:129-136 | no path ancestor: no alert; otherwise the alert reads "You clicked on: " and the region's text |
| AdventureCards.BandSizes | src/components/YourAdventures.js:304-307 | top = bottom = ⌈3n/10⌉, left = ⌊2n/10⌋, and the four bands sum to n |
| AdventureCards.RightBandSign | src/components/YourAdventures.js:307 | the right band is never below −1 and is negative exactly when n = 1 |
| AdventureCards.SlotInBand | src/components/YourAdventures.js:312-325 | every index below n lands inside its band at band start + position |
| AdventureCards.SlotInjective | src/components/YourAdventures.js:312-325 | two different indexes never share a side and position |
| AdventureCards.SlotOrdered | src/components/YourAdventures.js:312-325 | bands are contiguous and taken in the order top, right, bottom, left |
| AdventureCards.CardFor | src/components/YourAdventures.js:327-373 | a card takes the slot of its pin's index; its top-left corner is the screen point of the pin shifted by the side's offset (right: x+50, y+120k−40; left: x−270, y+120k−40; bottom: x+270k−125, y+50; top: x+270k−125, y−110, for position k); its arrow starts at the pin on screen and ends at the side's fixed offset from the card's corner |
| AdventureCards.BandNeighboursApart | src/components/YourAdventures.js:335-351 | cards sharing a side band are 120 apart vertically (left/right) or 270 apart horizontally (top/bottom) |
| YourAdventures.IndexedAppend | src/components/YourAdventures.js:214-227 | appending a pin whose index is its region's current count keeps every pin indexed by its region |
| YourAdventures.IndexesAreRanks | src/components/YourAdventures.js:214-224 | in an indexed list, the j-th pin of every region has index j |
| YourAdventures.NewPin | src/components/YourAdventures.js:214-225 | the new pin carries the selection, the texts and the click point; its index is the number of pins already in its region |
| YourAdventures.MarkerOf | src/components/YourAdventures.js:261-279 | the red icon is used exactly for visited pins |
| YourAdventures.Markers | src/components/YourAdventures.js:252-282 | once mounted, every pin has one marker at its screen position; before mounting, none |
| YourAdventures.CardsOfRegion | src/components/YourAdventures.js:285-296 | without a mounted map or a path for the hovered region there are no cards; otherwise exactly one card per hovered-region pin, in order |
| YourAdventures.HoveredRegionLayout | src/components/YourAdventures.js:285-373 | for the hovered region: the j-th card is in slot j, inside its band, no two cards share a slot, and each arrow starts at its pin's marker |
| YourAdventures.HoveredCardCorners | src/components/YourAdventures.js:327-355 | for the hovered region, one card per pin, and the j-th card's corner is the j-th pin shifted by its slot's offset, on screen and relative to the container |
| YourAdventures.AdventuresMap.constructor | src/components/YourAdventures.js:66-72 | paths start in `#6f9c76`, with no pins, no hover and a closed dialog |
| YourAdventures.AdventuresMap.MouseOver | src/components/YourAdventures.js:75-141 | no path ancestor: nothing changes; otherwise the highlight moves, the hovered region is recorded and the tooltip is placed with the flip rule |
| YourAdventures.AdventuresMap.MouseOut | src/components/YourAdventures.js:143-162 | the path is restored, the reference cleared only if it matches, the hovered region is cleared and the tooltip hidden |
| YourAdventures.AdventuresMap.Click | src/components/YourAdventures.js:164-183 | records the region, the box and a click point that the screen matrix maps back to the client point; opens the pin dialog |
| YourAdventures.AdventuresMap.SelectPinType | src/components/YourAdventures.js:204-208 | records the type and moves from the type step to the text step |
| YourAdventures.AdventuresMap.EditText | src/components/YourAdventures.js:493 | only the text field changes |
| YourAdventures.AdventuresMap.EditName | src/components/YourAdventures.js:483 | only the name field changes |
| YourAdventures.AdventuresMap.SubmitText | src/components/YourAdventures.js:210-233 | blank text: nothing changes; otherwise exactly one pin is appended with index = region count, earlier pins unchanged, the form and selection are reset, and the new pin list re-runs the map set-up, leaving every path at rest and none hovered |
| YourAdventures.AdventuresMap.CloseModal | src/components/YourAdventures.js:235-242 | both steps are closed and the selection and inputs cleared; pins are unchanged |
| DiscoveringUkraine.LabelFor | src/components/DiscoveringUkraine.js:83-90 | a label carries the name and catalog text and sits at the box centre |
| DiscoveringUkraine.LabelNodes | src/components/DiscoveringUkraine.js:100-110 | one text node per label, in order |
| DiscoveringUkraine.WithLabelsContents | src/components/DiscoveringUkraine.js:94-111 | after adding labels, the non-label children are as before and the label nodes are exactly the current labels |
| DiscoveringUkraine.AddLabelsIdempotent | src/components/DiscoveringUkraine.js:94-111 | adding the labels twice gives the same children as adding them once |
| DiscoveringUkraine.IndexPaths | src/components/DiscoveringUkraine.js:72-91 | every path gets exactly one cache entry with its box, and one label at its centre |
| DiscoveringUkraine.RemoveLabels | src/components/DiscoveringUkraine.js:96-97 | the removal loop removes exactly the label nodes and keeps the rest in order |
| DiscoveringUkraine.DiscoveringMap.constructor | src/components/DiscoveringUkraine.js:52-113 | set-up fills the three caches, styles the paths, builds cache and labels, and leaves the children with exactly the current labels |
| DiscoveringUkraine.DiscoveringMap.AddLabelNodes | src/components/DiscoveringUkraine.js:100-110 | the append loop adds the label nodes in order and changes nothing else |
| DiscoveringUkraine.DiscoveringMap.UpdateCache | src/components/DiscoveringUkraine.js:57-62 | unmounted: no change; otherwise all three cached values are replaced |
| DiscoveringUkraine.DiscoveringMap.MouseOver | src/components/DiscoveringUkraine.js:116-173 | the highlight always moves; the tooltip changes only with a cached matrix and map rectangle, placed from the cached box with the flip rule |
| DiscoveringUkraine.DiscoveringMap.MouseOut | src/components/DiscoveringUkraine.js:175-191 | the path is restored, the reference cleared only if it matches, and the tooltip hidden |
| DiscoveringUkraine.DiscoveringMap.Click | src/components/DiscoveringUkraine.js:193-200 | the alert names the region as its tooltip does |
| RegionModal.EntryFor | src/components/RegionModal.js:10-14 | a key missing from the data gives nothing to render |
| RegionModal.CountCorrectBounds | src/components/RegionModal.js:37-43 | 0 ≤ correct ≤ total; correct = total iff every answer is right; correct = 0 iff none is |
| RegionModal.Score | src/components/RegionModal.js:38-43 | the scoring loop counts the questions whose selected answer is the correct one |
| RegionModal.PercentageBounds | src/components/RegionModal.js:47 | the percentage is the half-up rounding of 100·correct/total, lies in [0,100], is 100 for a full score and 0 for none; a quiz without questions has none |
| RegionModal.PercentageMonotone | src/components/RegionModal.js:47 | more correct answers never give a lower percentage |
| RegionModal.Messages | src/components/RegionModal.js:92-97 | exactly one feedback message for any percentage: ≥90, [70,90), [50,70), <50; none without a percentage |
| RegionModal.SubmitEnabledIffAllAnswered | src/components/RegionModal.js:151 | the submit button is enabled exactly when every question has an answer |
| RegionModal.RegionDialog.constructor | src/components/RegionModal.js:6-8 | the dialog opens on the information view with no answers and no results |
| RegionModal.RegionDialog.TestClick | src/components/RegionModal.js:20-24 | enters the quiz with answers and results cleared |
| RegionModal.RegionDialog.DonateClick | src/components/RegionModal.js:26-28 | information → donation view |
| RegionModal.RegionDialog.BackToInfo | src/components/RegionModal.js:51-55 | quiz or donation → information, with answers and results cleared |
| RegionModal.RegionDialog.AnswerSelect | src/components/RegionModal.js:30-35 | sets one question's answer; every other answer is unchanged |
| RegionModal.RegionDialog.TestSubmit | src/components/RegionModal.js:37-49 | stores correct = the count of right answers, total = the number of questions, and the rounded percentage |
| AuthModal.ValidateRegistration | src/components/AuthModal.js:33-58 | the checks run in order and the first failure decides the error: empty field, student without class, password under 6, mismatch; success iff all pass |
| AuthModal.AvatarNumber | src/components/AuthModal.js:75 | the avatar number is in 1..10 |
| AuthModal.UserRecord | src/components/AuthModal.js:76-84 | the stored class is the chosen one only for students, else null |
| AuthModal.AuthDialog.constructor | src/components/AuthModal.js:6-21 | opens on the register tab with empty forms and no messages |
| AuthModal.AuthDialog.Register | src/components/AuthModal.js:27-107 | failure sets only the error, with nothing stored; success stores the same record as registered and current user, sets isLoggedIn "true", clears the form and schedules the close |
| AuthModal.AuthDialog.Login | src/components/AuthModal.js:110-150 | only empty fields fail; the password is never compared; a stored registered user becomes the current user and isLoggedIn "true" |
| AuthModal.AuthDialog.SelectRole | src/components/AuthModal.js:373-378 | choosing a role clears the class |
| AuthModal.AuthDialog.SwitchTab | src/components/AuthModal.js:171-187 | every tab switch clears both error and success and keeps the forms |
| StringOrder.Insert | src/components/AdminPanel.js:62-65 | inserting into a sorted duplicate-free list keeps it so and adds exactly that element |
| StringOrder.SortedUnique | src/components/AdminPanel.js:62-65 | two sorted duplicate-free lists with the same elements are equal |
| AdminPanel.EditDefaults | src/components/AdminPanel.js:97-102 | the edit form copies the user; a missing status becomes "pending" |
| AdminPanel.SaveDecision | src/components/AdminPanel.js:105-136 | no edited user: no-op; verified with amount ≤ 0: refused before any call; otherwise sends 0 for rejected and the form amount otherwise, with the message chosen by status |
| AdminPanel.ResetDecision | src/components/AdminPanel.js:153-160 | cancelled or empty: nothing; shorter than 6: refused before the call; otherwise that password is sent |
| AdminPanel.AmountOf | src/components/AdminPanel.js:326 | an unparsable amount is 0, otherwise the parsed amount |
| AdminPanel.ApproveDonation | src/components/AdminPanel.js:324-331 | approval sends a request iff the parsed amount is > 0, with that amount |
| AdminPanel.RejectDonation | src/components/AdminPanel.js:338-341 | rejection always sends amount 0 |
| AdminPanel.DonationStateOf | src/components/AdminPanel.js:224-235 | "donated" iff hasDonated or verified; otherwise pending, rejected or none, in that order |
| AdminPanel.BadgeClassesDistinct | src/components/AdminPanel.js:224-228 | two users share a badge class iff they share a donation state |
| AdminPanel.FilteredUsers | src/components/AdminPanel.js:190-192 | the empty filter keeps all users; otherwise exactly the users of that class |
| AdminPanel.FilteredUsersInOrder | src/components/AdminPanel.js:190-192 | the filtered list keeps the users' order and multiplicity, which the rendered list and its count rely on: filtering a split list filters each part, and one user is kept iff the filter is empty or names its class |
| AdminPanel.ClassesOf | src/components/AdminPanel.js:62-64 | the collected classes are exactly the non-empty classes of the users |
| AdminPanel.AvailableClasses | src/components/AdminPanel.js:62-65 | the class list is strictly sorted and holds exactly the non-empty classes |
| AdminPanel.AvailableClassesCanonical | src/components/AdminPanel.js:62-65 | the class list has no duplicates and is the only sorted list of those classes |
| AdminPanel.WithoutPinProperties | src/components/AdminPanel.js:173 | verifying removes exactly the entries with that id, keeps the others in order, and an absent id is a no-op |
| AdminPanel.Panel.constructor | src/components/AdminPanel.js:6-17 | the panel starts with no users, no pins, no filter and no edited user |
| AdminPanel.Panel.Loaded | src/components/AdminPanel.js:58-71 | storing a loaded list recomputes the sorted distinct class list |
| AdminPanel.Panel.SetFilter | src/components/AdminPanel.js:199 | only the filter changes |
| AdminPanel.Panel.EditUser | src/components/AdminPanel.js:95-103 | opens the dialog on that user with the default form |
| AdminPanel.Panel.EditAmount | src/components/AdminPanel.js:451 | the amount becomes the parsed value, or 0 |
| AdminPanel.Panel.EditStatus | src/components/AdminPanel.js:460 | only the status changes |
| AdminPanel.Panel.CancelEdit | src/components/AdminPanel.js:475 | the dialog closes and the form is kept |
| AdminPanel.Panel.SaveUser | src/components/AdminPanel.js:105-151 | the outcome is the save decision; only a sent and accepted save closes the dialog |
| AdminPanel.Panel.VerifyPin | src/components/AdminPanel.js:170-177 | an accepted verification removes exactly the entries with that id; a failed one changes nothing |
| WelcomeGuide.NextSlide | src/components/WelcomeGuide.js:141-147 | next moves on when not on the last slide and finishes on the last |
| WelcomeGuide.PrevSlide | src/components/WelcomeGuide.js:149-153 | back moves back when above 0 and does nothing at 0 |
| WelcomeGuide.NextPrevInverse | src/components/WelcomeGuide.js:141-153 | back undoes next except at the end; next undoes back except at the start |
| WelcomeGuide.Dots | src/components/WelcomeGuide.js:175-183 | a dot is active iff it is the current slide, and completed iff it comes before it |
| WelcomeGuide.OneActiveDot | src/components/WelcomeGuide.js:178-180 | exactly one dot is active and none is both active and completed |
| WelcomeGuide.NextLabel | src/components/WelcomeGuide.js:229 | the button reads "Розпочати! 🚀" iff on the last slide |
| WelcomeGuide.Guide.constructor | src/components/WelcomeGuide.js:139 | the guide starts on slide 0 |
| WelcomeGuide.Guide.Finish | src/components/WelcomeGuide.js:155-163 | finish and skip set `welcomeGuideCompleted` to "true" and close |
| WelcomeGuide.Guide.Next | src/components/WelcomeGuide.js:141-147 | advances within range, or finishes on the last slide |
| WelcomeGuide.Guide.Prev | src/components/WelcomeGuide.js:149-153 | goes back one slide, not below 0 |
| WelcomeGuide.Guide.GoTo | src/components/WelcomeGuide.js:181 | a dot jumps to its slide |
| PhotoGallery.NextIndex | src/components/PhotoGallery.js:47 | next stays in [0,n), increments below the end and wraps to 0 at the end |
| PhotoGallery.NextPrevInverse | src/components/PhotoGallery.js:46-58 | prev undoes next and next undoes prev, from every photo |
| PhotoGallery.AdvanceIsModular | src/components/PhotoGallery.js:39-41 | k autoplay steps land on (i+k) mod n |
| PhotoGallery.ActiveDots | src/components/PhotoGallery.js:98-101 | exactly the dot of the current photo is active |
| PhotoGallery.Gallery.constructor | src/components/PhotoGallery.js:32-33 | starts on photo 0, not paused |
| PhotoGallery.Gallery.AutoStep | src/components/PhotoGallery.js:36-41 | autoplay advances only while not paused, with wrap-around |
| PhotoGallery.Gallery.Next | src/components/PhotoGallery.js:46-50 | advances with wrap-around and pauses |
| PhotoGallery.Gallery.Prev | src/components/PhotoGallery.js:52-58 | goes back with wrap-around and pauses |
| PhotoGallery.Gallery.GoTo | src/components/PhotoGallery.js:60-64 | jumps to that photo and pauses |
| PhotoGallery.Gallery.Resume | src/components/PhotoGallery.js:49 | the resume timer clears the pause and keeps the photo |
| Toast.ClassNameOf | src/components/Toast.js:48-50 | a known type gets its own class, any other type the info class |
| Toast.RemoveUndoesAdd | src/components/Toast.js:98-106 | removing a toast just added with a fresh id gives back the previous list |
| Toast.RemoveProperties | src/components/Toast.js:104-106 | removal drops every toast with that id, keeps every other one in order (removal from a split list is removal from each part), is a no-op when the id is absent, and repeating it changes nothing |
| Toast.ToastProvider.constructor | src/components/Toast.js:96 | the provider starts with no toasts |
| Toast.ToastProvider.AddToast | src/components/Toast.js:98-102 | appends exactly one toast (type "info" when omitted), leaves the earlier ones unchanged, and returns its id |
| Toast.ToastProvider.RemoveToast | src/components/Toast.js:104-106 | the list becomes the filter of the old list by id |
| Toast.ToastProvider.Typed | src/components/Toast.js:108-113 | each typed helper appends a toast of its own type, styled with that type's class |
| Toast.ToastProvider.ContainerShown | src/components/Toast.js:76-77 | the container renders iff there is a toast |
| Api.AuthHeaders | src/services/api.js:5-11 | Content-Type is always JSON; Authorization is "Bearer " + token exactly when the token is non-empty |
| Api.MultipartHeaders | src/services/api.js:14-20 | never sets Content-Type; Authorization exactly when the token is non-empty |
| Api.MultipartIsAuthWithoutContentType | src/services/api.js:5-20 | the multipart headers are the JSON headers without Content-Type |
| Api.UserRecordOf | src/services/api.js:340-350 | the stored user holds exactly those of the nine fields the server sent |
| Api.IsAuthenticated | src/services/api.js:361-363 | truthy iff isLoggedIn is "true" and the token is non-empty |
| Api.CurrentUser | src/services/api.js:366-369 | a user is returned iff `currentUser` is stored and not the empty string, and then it is the stored value |
| Api.SaveThenQuery | src/services/api.js:337-363 | after saving, isAuthenticated is truthy unless the token is empty, and the current user is the saved record |
| Api.ClearThenQuery | src/services/api.js:354-369 | after clearing, isAuthenticated is false and there is no current user; other keys are untouched |
| Api.SaveAuthData | src/services/api.js:337-351 | writes token (missing → "undefined"), isLoggedIn "true" and the user record |
| Api.ClearAuthData | src/services/api.js:354-358 | removes token and currentUser and sets isLoggedIn "false" |
| Common.NatToDecimal | src/services/api.js:29-33 | the decimal text of a status code: digits only, never empty, a leading zero only for 0 |
| Common.DecimalRoundTrip | src/components/WelcomeGuide.js:190 | the digits written for a number denote that number, so "Крок k з 6" and the status messages show the actual values |
| Api.HandleResponse | src/services/api.js:23-52 | returns the data unchanged iff ok with JSON and success; otherwise throws the server message when present; without one, "Помилка сервера: <status>" for a failed JSON response, "Сервер недоступний або повернув некоректну відповідь (<status>)" for a failed non-JSON one, "Сервер повернув некоректну відповідь" for a successful non-JSON one and "Помилка сервера" for `success: false`; never empty |
| Api.ImageEntries | src/services/api.js:140-142 | the image entries are the given count of files, in order |
| Api.PinForm | src/services/api.js:132-142 | the form holds the four pin fields then the first min(len, 5) images, in order |
| Api.RegisterBody | src/services/api.js:61-67 | the class is sent only for `userType` "student", else null |
| Storage.LocalStorage.GetItem | src/services/api.js:362 | getItem returns the value under the key, or null |
| Storage.LocalStorage.SetItem | src/services/api.js:338-339 | setItem changes only that key |
| Storage.LocalStorage.RemoveItem | src/services/api.js:355-356 | removeItem drops only that key |

## Left out

- Network: every `fetch`, the endpoint wrappers of `src/services/api.js`,
  SVG loading, and `loadData` / `loadUsers`. Each is left out because it is
  I/O. Server calls appear only as outcomes passed to the handlers, or as
  the response given to `HandleResponse`.
- Timers are abstracted away; only their effects are methods:
  - the toast auto-close (4000 ms plus the 300 ms exit);
  - the carousel interval and the 8 s resume (`Gallery.AutoStep`, `Gallery.Resume`);
  - the 800 ms and 1500 ms delays of the auth dialog. The close is returned as a flag.
- Asynchronous interleaving of handlers is left out: each handler runs to completion.
- DOM and browser APIs are inputs: `getBBox`, `getScreenCTM`,
  `getBoundingClientRect`, `closest`, CSS transitions, listener add/remove,
  `alert`, `prompt`, `window.open` and `console`.
- Floating point: coordinates and amounts are exact reals.
  - The band sizes `Math.ceil(n*0.3)` and `Math.floor(n*0.2)` are the exact ⌈3n/10⌉ and ⌊2n/10⌋.
  - `Math.round` of the percentage is the exact half-up rounding.
- RegionModal.PercentageBounds: a percentage of 100 does not imply a perfect
  score. For 200 or more questions, 199/200 rounds to 100. Only "a perfect
  score gives 100" and "no correct answer gives 0" are stated.
- `Date.now()` and `Math.random()` are parameters. Toast ids are not
  guaranteed unique by the code, so `Toast.RemoveUndoesAdd` assumes a fresh id.
- JSON: a stored record is a flat field map, and `JSON.parse` of what
  `JSON.stringify` wrote is assumed to give it back. Text that is not JSON,
  or a non-object JSON error body, is not modelled.
- Api.TokenOf: a `token` key holding a record is treated as absent. The
  code never writes one.
- Strings are sequences of characters, not UTF-16 code units. String
  lengths and `sort`'s order differ from the source only for characters
  outside the Basic Multilingual Plane.
- AdminPanel fields the server omits become their falsy defaults ("", 0,
  false), and `donation?.amount` is one `recordedAmount` field.
- Toast.ClassNameOf, Catalog.ClickText, RegionModal.EntryFor: the source
  looks these keys up in plain objects. A key naming an `Object.prototype`
  member such as "toString" or "constructor" therefore finds an inherited
  entry. The toast would get no class name, the click would alert "You
  clicked on: undefined", and the region dialog would render. The model's
  lookups see only the object's own keys, so these cases get the info
  class, the raw name and nothing rendered. The keys come from the toast
  helpers, the SVG's region names and the app's region keys.
- RegionModal.RegionDialog methods require the view in which their button
  is rendered. Answers come only from the radio buttons, so indexes are in
  range.
- The registration body of AuthModal is only logged, so it is not
  modelled. The request body of `register` in `src/services/api.js` is
  modelled by `Api.RegisterBody`.
- `src/utils/mapUtils.js` (`loadSVG` promise sharing, `debounce`,
  `throttle`) is timer and promise plumbing and is not part of this model.
  Neither is the static markup of `src/components/AboutSection.js`.
- `src/data/regionData.js` is transcribed as the colour catalog. Its text
  and colours match the catalog inside `src/components/DiscoveringUkraine.js`.
- YourAdventures.AdventuresMap.Click: requires an invertible screen matrix
  when a path is hit. The source inverts `getScreenCTM()` of a rendered SVG
  whose path received the click, and such a transform is non-degenerate. A
  singular matrix, for which `inverse()` would fail, is not modelled.
- YourAdventures.AdventuresMap.SubmitText: the set-up effect that a new pin
  list triggers re-fetches and re-inserts the SVG after the fetch resolves;
  the model applies its outcome at once through `HoverSurface.Reload`. The
  source's hovered-path reference keeps pointing at the detached old
  element, and restoring that element later has no visible effect. The
  model therefore treats the reference as cleared. The new `svgElementRef`
  and the re-registered listeners are not modelled separately.
- The discovery map's path cache is keyed by element, modelled as the
  path's position.
