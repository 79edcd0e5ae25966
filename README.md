# ORMAS exhibition data screens in Dafny

This project models the logic inside the event handlers of the ORMAS
exhibition-management front end. The modelled screens are the stall
registration form, the daily sales page, the registration viewer, the
home-page slideshow and the products page. The Firestore collections become
sequences of documents. The static datasets become parameters: the Odisha
village tree and the product taxonomy JSON.

Modules:

- `Wrappers`: `Option`.
- `Seqs`: the JavaScript array operations the screens use: `filter`, `find`,
  `findIndex`, `new Set` (first-occurrence de-duplication) and removal by index.
  Also holds subsequence and multiset facts about them.
- `Text`: `String.prototype.trim` over the ECMAScript white-space and
  line-terminator set, and string ordering. Also `sort()` on strings.
- `Geography`: the state → district → block → gram-panchayat tree, and the
  three React effects that derive the dependent option lists.
- `Taxonomy`: `getUniqueCategories` and `getProductsByCategory` over the raw
  JSON rows, whose keys carry a trailing space and whose values are trimmed.
- `ParticipantRegistration`: class `RegistrationForm`. It holds the
  registration record, the `isOdisha` flag and the three option lists. Its
  handlers update them in place.
- `DailySales`: class `SalesPage`, plus the pure parts beside it:
  - stall-scoped category and product options;
  - row updates and validation;
  - totals;
  - the per-stall history, sorted by date, with the newest first;
  - the replacement of an entry's rows.
- `RegistrationViewer`: class `Viewer` for the expand toggle, the edit form,
  saving and participant edits. Also the "Other State" option list.
- `ExhibitionSlideshow`: class `Slideshow` for the index transitions modulo
  the photo count, and the guards on rendering.
- `ProductsPage`: the category filter and the initial category.

Each class has a `Valid()` invariant that its methods preserve:

- the registration form: location options stay in scope;
- the sales page: history is sorted, and every entry names a stored
  document;
- the viewer: registration ids are unique, and an open form belongs to the
  registration being edited;
- the slideshow: the index is in range, and a failed load leaves no photos.

The sales page and the viewer run the corrected fetch and merge of the
Findings below, with document ids as entry ids. The last two invariants hold
only for that corrected program. As written, every entry written by the
application has id `''`, and the local merge blanks the stall number. The
as-written functions (`HistoryAsWritten`, `FetchStallsAsWritten`,
`FetchAsWritten`, `MergeAsWritten`) sit beside the corrected ones, and lemmas
state what goes wrong with them.

Each state-changing method states its entire new state. I/O is reduced to parameters:

- a store that accepts or refuses a write is a `storeAccepts` flag;
- fetched data is a parameter;
- a fresh document id is a parameter.

## Model

| member | source | states |
|---|---|---|
| Geography.OdishaDistricts | src/components/data/ParticipantRegistration.tsx:95-103 | With state Odisha, the district options are that node's district names in tree order. Without an Odisha node the previous list is kept. |
| Geography.OtherStateKeepsOptions | src/components/data/ParticipantRegistration.tsx:95-125 | For any state other than Odisha, none of the three effects changes its list (the lists are not cleared). |
| Geography.BlockOptionsFollowPath | src/components/data/ParticipantRegistration.tsx:105-114 | Block options are the block names of the exact, case-sensitive path Odisha → district. If the district is not found, the previous list stays. |
| Geography.GramPanchayatOptionsFollowPath | src/components/data/ParticipantRegistration.tsx:116-125 | Gram-panchayat options are those of the exact path Odisha → district → block. Otherwise the previous list stays. |
| Geography.UnresolvedPathKeepsOptions | src/components/data/ParticipantRegistration.tsx:105-125 | When the path does not resolve, the block and gram-panchayat lists are kept. This covers an empty district or block, no Odisha node, and a district that names no Odisha district. |
| Geography.RefreshIdempotent | src/components/data/ParticipantRegistration.tsx:95-125 | Re-running the effects with unchanged dependencies changes nothing. So running them after every location change matches React's dependency-driven runs. |
| Geography.RefreshInScope | src/components/data/ParticipantRegistration.tsx:95-125 | Every option list is empty or drawn from the right part of the tree, before and after the effects. |
| Taxonomy.UniqueCategories | src/components/data/ParticipantRegistration.tsx:251-253 | The result has no duplicates, and it holds exactly the trimmed categories of the rows. |
| Taxonomy.UniqueCategoriesInFirstOccurrenceOrder | src/components/data/ParticipantRegistration.tsx:251-253 | Categories appear in the order of their first occurrence, and are not sorted. |
| Taxonomy.ProductsByCategoryConcat | src/components/data/ParticipantRegistration.tsx:255-259 | Products are taken row by row in source order, with duplicates kept: the list for a concatenation is the concatenation of the lists. |
| Taxonomy.ProductsByCategoryOfRow | src/components/data/ParticipantRegistration.tsx:255-259 | A row contributes its trimmed sub-category exactly when its trimmed category equals `c`. |
| Taxonomy.ProductsByCategorySound | src/components/data/ParticipantRegistration.tsx:255-259 | Every product offered for `c` is the trimmed sub-category of some row whose trimmed category is `c`. |
| Taxonomy.CategoryHasProductsIffListed | src/components/data/ParticipantRegistration.tsx:251-259 | A category has products if and only if it is one of the unique categories. |
| Text.TrimIdempotent | src/components/data/DailySales.tsx:237-238 | Trimming an already trimmed value changes nothing, so trimmed stall products compare equal after trimming again. |
| ParticipantRegistration.WithCategory | src/components/data/ParticipantRegistration.tsx:744-751 | A row's new category is set and its product cleared. Quantity, value and photos are kept. |
| ParticipantRegistration.CategoryThenProductConsistent | src/components/data/ParticipantRegistration.tsx:744-786 | After a category change the row is consistent with the taxonomy. Picking a product from that category's options keeps it consistent. |
| ParticipantRegistration.WithCategoryIdempotent | src/components/data/ParticipantRegistration.tsx:744-751 | Choosing the same category twice equals choosing it once. |
| ParticipantRegistration.RegistrationForm.constructor | src/components/data/ParticipantRegistration.tsx:61-88 | Initial record (SHG, DRDA/DSMS, empty lists), `isOdisha` true, empty option lists. |
| ParticipantRegistration.RegistrationForm.RunEffects | src/components/data/ParticipantRegistration.tsx:95-125 | The option lists become `Refresh` of the current location. The record and flag are unchanged. |
| ParticipantRegistration.RegistrationForm.SelectState | src/components/data/ParticipantRegistration.tsx:348-359 | Sets the state. Clears district, block, gram panchayat and other state to `''`. `isOdisha` becomes (state == Odisha). Every other field is kept. Only the district list can change. |
| ParticipantRegistration.RegistrationForm.SetOtherState | src/components/data/ParticipantRegistration.tsx:374-378 | Only `otherState` changes. |
| ParticipantRegistration.RegistrationForm.SetDistrict | src/components/data/ParticipantRegistration.tsx:400-405 | Only the district changes (the block is not cleared). The effects re-derive the option lists. |
| ParticipantRegistration.RegistrationForm.SetBlock | src/components/data/ParticipantRegistration.tsx:434-439 | Only the block changes. The effects re-derive the option lists. |
| ParticipantRegistration.RegistrationForm.SetGramPanchayat | src/components/data/ParticipantRegistration.tsx:469-474 | Only the gram panchayat changes. |
| ParticipantRegistration.RegistrationForm.AddStallPhoto | src/components/data/ParticipantRegistration.tsx:146-150 | The photo is appended to the stall photos. |
| ParticipantRegistration.RegistrationForm.RemoveStallPhoto | src/components/data/ParticipantRegistration.tsx:578-582 | Deletes exactly stall photo `index` and keeps the order of the rest. Nothing else changes. |
| ParticipantRegistration.RegistrationForm.AddParticipant | src/components/data/ParticipantRegistration.tsx:182-187 | Appends one blank participant (male, empty fields). The length grows by exactly 1. |
| ParticipantRegistration.RegistrationForm.RemoveParticipant | src/components/data/ParticipantRegistration.tsx:189-194 | Deletes exactly index `i` and keeps the order of the rest. |
| ParticipantRegistration.RegistrationForm.SetParticipantName | src/components/data/ParticipantRegistration.tsx:634-638 | Only participant `i`'s name changes. |
| ParticipantRegistration.RegistrationForm.SetParticipantPhone | src/components/data/ParticipantRegistration.tsx:649-653 | Only participant `i`'s phone changes. |
| ParticipantRegistration.RegistrationForm.SetParticipantGender | src/components/data/ParticipantRegistration.tsx:665-669 | Only participant `i`'s gender changes. |
| ParticipantRegistration.RegistrationForm.UpdateParticipantPhoto | src/components/data/ParticipantRegistration.tsx:164-171 | Only participant `i`'s `profilePhoto` is replaced (or cleared with `''`). Every other participant and field is kept. |
| ParticipantRegistration.RegistrationForm.AddInventoryItem | src/components/data/ParticipantRegistration.tsx:196-207 | Appends one blank row (quantity 0, value 0, no photos). The length grows by exactly 1. |
| ParticipantRegistration.RegistrationForm.RemoveInventoryItem | src/components/data/ParticipantRegistration.tsx:209-214 | Deletes exactly row `i` and keeps the order of the rest. |
| ParticipantRegistration.RegistrationForm.SetInventoryCategory | src/components/data/ParticipantRegistration.tsx:744-751 | Row `i` takes the category and loses its product. Its quantity, value and photos and all other rows are unchanged. |
| ParticipantRegistration.RegistrationForm.SetInventoryProduct | src/components/data/ParticipantRegistration.tsx:769-775 | Only row `i`'s product changes. |
| ParticipantRegistration.RegistrationForm.SetInventoryQuantity | src/components/data/ParticipantRegistration.tsx:797-800 | Only row `i`'s quantity changes. |
| ParticipantRegistration.RegistrationForm.SetInventoryValue | src/components/data/ParticipantRegistration.tsx:813-816 | Only row `i`'s value changes. |
| ParticipantRegistration.RegistrationForm.UpdateInventoryPhoto | src/components/data/ParticipantRegistration.tsx:173-180 | `p` is appended at the end of row `i`'s photos. Nothing else changes. |
| ParticipantRegistration.RegistrationForm.RemoveInventoryPhoto | src/components/data/ParticipantRegistration.tsx:832-838 | Photo `k` is removed from row `i` only. |
| ParticipantRegistration.RegistrationForm.Submit | src/components/data/ParticipantRegistration.tsx:216-249 | With no validation, a successful write appends the record as it is and resets the form to its initial value. A refused write changes nothing. The flag and option lists are not reset. |
| DailySales.StallProducts | src/components/data/DailySales.tsx:234-240 | The inventory of the first stall with that id, both fields trimmed, in order. Empty when no stall matches. |
| DailySales.FetchStallsIds | src/components/data/DailySales.tsx:77-88 | With document ids as stall ids, every stall option names a registration of the chosen exhibition. No option has the placeholder's value `''`, and no two options share a value. |
| DailySales.AsWrittenStallOptionsBlank | src/components/data/DailySales.tsx:82-85 | As written, every stall option of registrations written by the registration form has the value `''`, the value of the "Select Stall" placeholder. |
| DailySales.CategoryOptionsSpec | src/components/data/DailySales.tsx:322-330 | Category options are strictly ascending (distinct and sorted), non-empty, and exactly the non-empty categories of the stall's products. |
| DailySales.ProductOptions | src/components/data/DailySales.tsx:343-350 | None when the row's category is empty. Otherwise exactly the stall products whose trimmed category equals the row's trimmed category. |
| DailySales.ProductOptionsInOrder | src/components/data/DailySales.tsx:344-346 | Product options keep the inventory order. |
| DailySales.OfferedCategoryHasProducts | src/components/data/DailySales.tsx:322-350 | For trimmed products, a category is offered if and only if it is a non-empty trimmed string with at least one product option. |
| DailySales.UpdateRow | src/components/data/DailySales.tsx:112-138 | A category change sets the category and clears `productName`, keeping the quantity and value. Any other field changes alone. |
| DailySales.CategoryThenClearProduct | src/components/data/DailySales.tsx:313-317 | The handler's second call (clearing the product) adds nothing to the first. |
| DailySales.FreshRowsInvalid | src/components/data/DailySales.tsx:140-147 | A blank row, or a row whose category was just changed, fails validation. |
| DailySales.TotalAppend | src/components/data/DailySales.tsx:516 | The total of concatenated rows is the sum of the totals. |
| DailySales.TotalReplace | src/components/data/DailySales.tsx:516 | Editing one row moves the total by exactly that row's change in `salesValue`. |
| DailySales.ValidRowsTotal | src/components/data/DailySales.tsx:140-147 | Rows that pass validation total at least one per row. |
| DailySales.SortByDateSorted | src/components/data/DailySales.tsx:100 | The sorted history is in descending date order (string comparison). `SortByDate` keeps the same multiset. |
| DailySales.HistorySpec | src/components/data/DailySales.tsx:90-101 | History is sorted by date, newest first. It holds exactly the documents whose `stallId` is the selected stall, each as often as stored. |
| DailySales.HistoryIdsAreDocIds | src/components/data/DailySales.tsx:96-99 | With the document id as entry id, every history entry names a stored document. |
| DailySales.HistoryIdsUnique | src/components/data/DailySales.tsx:96-99 | No two history entries share an id. |
| DailySales.HistoryAfterSubmit | src/components/data/DailySales.tsx:159-169 | After saving, the refreshed history holds exactly one more entry: the new document. |
| DailySales.ReplaceProducts | src/components/data/DailySales.tsx:221-223 | Only entries with that id get the new rows. All others are unchanged. Ids, dates and stalls are kept. |
| DailySales.ReplaceProductsKeepsOrder | src/components/data/DailySales.tsx:221-223 | Replacing rows keeps the history sorted. |
| DailySales.UpdateStored | src/components/data/DailySales.tsx:217-218 | The store update changes only the `products` of the document with that id. |
| DailySales.SaveEditChangesExactlyOneEntry | src/components/data/DailySales.tsx:215-226 | Saving an edit of entry `i` changes exactly that entry's rows, and the targeted document exists. |
| DailySales.AsWrittenEditTargetsNoDocument | src/components/data/DailySales.tsx:96-99 | As written, all entries share the id `''`, and no document has that id. |
| DailySales.AsWrittenSingleDocument | src/components/data/DailySales.tsx:160-167 | One saved document "d1" yields an entry with id `''` as written and "d1" corrected. |
| DailySales.SalesPage.constructor | src/components/data/DailySales.tsx:31-39 | Everything starts empty except the date parameter. |
| DailySales.SalesPage.SelectExhibition | src/components/data/DailySales.tsx:65-88 | A non-empty choice loads that exhibition's registrations as stalls, in store order, by the corrected fetch. Nothing else changes. |
| DailySales.SalesPage.SelectStall | src/components/data/DailySales.tsx:71-75 | A non-empty choice loads `History(store, stall)`. The history stays sorted. |
| DailySales.SalesPage.SetSaleDate | src/components/data/DailySales.tsx:287-288 | Only the date changes. |
| DailySales.SalesPage.AddSaleItem | src/components/data/DailySales.tsx:103-110 | Appends one blank row. |
| DailySales.SalesPage.UpdateSaleItem | src/components/data/DailySales.tsx:112-138 | Only row `i` changes, by `UpdateRow`. |
| DailySales.SalesPage.SelectSaleCategory | src/components/data/DailySales.tsx:313-317 | Net effect of the category selector: the trimmed choice is set and the product cleared, on row `i` only. |
| DailySales.SalesPage.Submit | src/components/data/DailySales.tsx:149-175 | Any invalid row rejects the submit and nothing changes. The empty list passes. Otherwise exactly one document `{id:'', exhibition, stall, date, rows}` is appended (never merged), the rows are cleared and the history is reloaded. A refused write changes nothing. |
| DailySales.SalesPage.StartEditing | src/components/data/DailySales.tsx:177-180 | Copies entry `i`'s id and rows into the edit state. |
| DailySales.SalesPage.CancelEditing | src/components/data/DailySales.tsx:182-185 | Clears the edit state. |
| DailySales.SalesPage.UpdateEditingProduct | src/components/data/DailySales.tsx:187-213 | Only edit row `i` changes, by `UpdateRow`. |
| DailySales.SalesPage.SelectEditingCategory | src/components/data/DailySales.tsx:420-424 | Net effect of the edit row's category selector: category set, product cleared. |
| DailySales.SalesPage.SaveSaleEdit | src/components/data/DailySales.tsx:215-232 | With no validation, the document and the history entries with that id get the edited rows. The edit state is then cleared. A refused update changes nothing. |
| RegistrationViewer.OtherStateOptions | src/components/data/RegistrationViewer.tsx:251-256 | Odisha never appears. Every other state and territory does, and nothing else. |
| RegistrationViewer.OtherStateOptionsOrder | src/components/data/RegistrationViewer.tsx:251-252 | Options are the states and then the territories, each in order, without Odisha. |
| RegistrationViewer.Toggle | src/components/data/RegistrationViewer.tsx:173-175 | Collapses if that stall is open, otherwise opens that stall. |
| RegistrationViewer.ToggleTwice | src/components/data/RegistrationViewer.tsx:173-175 | Two clicks restore the state if and only if no stall or that stall was open. Otherwise everything ends collapsed. |
| RegistrationViewer.OpenForm | src/components/data/RegistrationViewer.tsx:187-194 | The form is the registration with `stallNumber` undefined, and nothing else changed. |
| RegistrationViewer.UpdateForm | src/components/data/RegistrationViewer.tsx:215-354 | A state change clears district, block, gram panchayat and other state. No input touches the id, stall number, participants or inventory. |
| RegistrationViewer.FormEditsKeepIdentity | src/components/data/RegistrationViewer.tsx:215-354 | Any sequence of inputs keeps the form's id and its undefined stall number. |
| RegistrationViewer.PatchDoc | src/components/data/RegistrationViewer.tsx:126-129 | The stored document takes every form field except the stall number, which it keeps. |
| RegistrationViewer.Merge | src/components/data/RegistrationViewer.tsx:131-135 | Corrected local merge: the form's fields over the registration, keeping its stall number. |
| RegistrationViewer.SavedEntryMatchesReload | src/components/data/RegistrationViewer.tsx:126-135 | After a save, the corrected local entry equals what reloading the document shows. |
| RegistrationViewer.AsWrittenMergeBlanksStallNumber | src/components/data/RegistrationViewer.tsx:131-135 | As written, the local stall number becomes undefined, while the store keeps it. |
| RegistrationViewer.FetchIdsUnique | src/components/data/RegistrationViewer.tsx:75-87 | With document ids as entry ids, fetched registrations have distinct ids, each naming a document. |
| RegistrationViewer.AsWrittenFetchIdsBlank | src/components/data/RegistrationViewer.tsx:83-86 | As written, every registration stored by the registration form is fetched with id `''`, which names no document. |
| RegistrationViewer.MapWithIdAt | src/components/data/RegistrationViewer.tsx:109-113 | With unique ids, mapping over the id of entry `i` changes entry `i` alone. When the update keeps ids, the ids stay unique. |
| RegistrationViewer.Viewer.constructor | src/components/data/RegistrationViewer.tsx:39-50 | Nothing selected, expanded or edited. |
| RegistrationViewer.Viewer.SelectExhibition | src/components/data/RegistrationViewer.tsx:56-60 | A non-empty choice loads its registrations, whose ids are unique. |
| RegistrationViewer.Viewer.ToggleExpand | src/components/data/RegistrationViewer.tsx:173-175 | `expandedStall` becomes `Toggle` of its old value. |
| RegistrationViewer.Viewer.OpenEditForm | src/components/data/RegistrationViewer.tsx:187-194 | Opens the form on registration `i` with its stall number undefined. |
| RegistrationViewer.Viewer.CancelEditForm | src/components/data/RegistrationViewer.tsx:362-365 | Clears `editingRegistration` and `editForm`. |
| RegistrationViewer.Viewer.ChangeEditForm | src/components/data/RegistrationViewer.tsx:223-232 | The form changes by `UpdateForm`. |
| RegistrationViewer.Viewer.SaveRegistrationEdit | src/components/data/RegistrationViewer.tsx:122-143 | The store takes the patch without the stall number. The form is merged only over the registration with that id, and the edit state is cleared. A refused update sets the error and changes nothing else. |
| RegistrationViewer.Viewer.StartParticipantEdit | src/components/data/RegistrationViewer.tsx:450-453 | Marks that participant as being edited. |
| RegistrationViewer.Viewer.CancelParticipantEdit | src/components/data/RegistrationViewer.tsx:429 | Clears the participant being edited. |
| RegistrationViewer.Viewer.HandleParticipantEdit | src/components/data/RegistrationViewer.tsx:96-120 | Only participant `p` of registration `i` is replaced, in the store and locally. Other participants and registrations are unchanged. |
| ExhibitionSlideshow.NextIndex | src/components/ExhibitionSlideshow.tsx:37-39 | Stays in [0, n). Maps `i` to `i + 1`, and the last index to 0. |
| ExhibitionSlideshow.PrevIndex | src/components/ExhibitionSlideshow.tsx:41-43 | Stays in [0, n). Maps `i` to `i - 1`, and 0 to `n - 1`. |
| ExhibitionSlideshow.PrevUndoesNext | src/components/ExhibitionSlideshow.tsx:37-43 | `prev(next(i)) == i` and `next(prev(i)) == i`. |
| ExhibitionSlideshow.AdvanceWithoutWrap | src/components/ExhibitionSlideshow.tsx:37-39 | Before the last photo, `k` forward steps add `k`. |
| ExhibitionSlideshow.AdvanceCompose | src/components/ExhibitionSlideshow.tsx:29-31 | `a + b` ticks equal `a` ticks followed by `b` ticks. |
| ExhibitionSlideshow.FullRound | src/components/ExhibitionSlideshow.tsx:29-39 | `n` steps forward return to the starting photo. |
| ExhibitionSlideshow.Slideshow.constructor | src/components/ExhibitionSlideshow.tsx:6-9 | No photos, index 0, loading, no error. |
| ExhibitionSlideshow.Slideshow.PhotosLoaded | src/components/ExhibitionSlideshow.tsx:14-20 | Photos set, loading ends, index 0. The slideshow is drawn if and only if some photo arrived. |
| ExhibitionSlideshow.Slideshow.LoadFailed | src/components/ExhibitionSlideshow.tsx:16-20 | The error is set and loading ends. Nothing is drawn. |
| ExhibitionSlideshow.Slideshow.ControlsAreDrawn | src/components/ExhibitionSlideshow.tsx:45-71 | With more than one photo the slideshow is drawn: no loading, no error, photos present. So its arrows and dots are on screen. |
| ExhibitionSlideshow.Slideshow.Next | src/components/ExhibitionSlideshow.tsx:37-39 | The index becomes `NextIndex`. Arrows exist only while the slideshow is drawn and with more than one photo. |
| ExhibitionSlideshow.Slideshow.Prev | src/components/ExhibitionSlideshow.tsx:41-43 | The index becomes `PrevIndex`, under the same guard as the arrows. |
| ExhibitionSlideshow.Slideshow.SelectDot | src/components/ExhibitionSlideshow.tsx:85-94 | Dot `k` sets the index to `k`. Dots exist only while the slideshow is drawn and with more than one photo. |
| ExhibitionSlideshow.Slideshow.Tick | src/components/ExhibitionSlideshow.tsx:27-35 | With more than one photo a tick advances the index. Otherwise no interval exists and nothing changes. |
| ProductsPage.FilteredProducts | src/pages/Products.tsx:33-35 | With a selection, every product shown has that category. With none, all pass. Every matching product is shown. |
| ProductsPage.FilteredInOrder | src/pages/Products.tsx:33-35 | The result is an order-preserving subsequence of the products. |
| ProductsPage.EmptySelectionShowsAll | src/pages/Products.tsx:34 | An empty selection returns all products unchanged. |
| ProductsPage.InitialSelection | src/pages/Products.tsx:13 | With the initial category `'Handloom'`, exactly the handloom products are shown. |

## Left out

- DailySales.SalesPage.SelectStall: loads the corrected `History`, whose entries carry their document ids. As written (DailySales.tsx:96-99), every entry the page wrote has id `''`. `Valid()`'s `Backed` then fails, and `StartEditing`/`SaveSaleEdit` address no document. See the Findings row for DailySales.tsx:96-99.
- DailySales.SalesPage.Submit: reloads the corrected `History` after a save. As written, the new entry comes back with id `''` rather than its document id.
- DailySales.SalesPage.SelectExhibition: loads the corrected `FetchStalls`, whose stalls carry their document ids. As written (DailySales.tsx:82-85), every stall option has value `''`, so no stall can be chosen. See the Findings row for DailySales.tsx:82-85.
- RegistrationViewer.Viewer.SelectExhibition: loads the corrected `Fetch`, with document ids. As written (RegistrationViewer.tsx:83-86), every registration written by the registration form has id `''`. `UniqueIds` then fails, and `ToggleExpand`, `OpenEditForm` and `HandleParticipantEdit` act on every registration at once. See the Findings row for RegistrationViewer.tsx:83-86.
- RegistrationViewer.Viewer.SaveRegistrationEdit: merges the form with the corrected `Merge`, which keeps the stall number. As written (RegistrationViewer.tsx:131-135), the local stall number is blanked. See the Findings row for RegistrationViewer.tsx:131-135.
- The stall's `participantName` is taken from the fetched data as the `Stall` interface declares it. The registration form writes no such field, so the code shows it as undefined.

- Firestore (`getDocs`, `addDoc`, `updateDoc`, `query`/`where`) is not modelled as such:
  - each collection is a sequence of documents, with an append and a replace-by-id;
  - a refused or failing call is a `storeAccepts` flag under which nothing changes;
  - fetched data and fresh document ids are parameters.
- Writing `undefined` as a field value. The model assumes the store ignores an undefined stall number in the viewer's patch. The Firebase configuration is not part of this model. Without that setting every viewer save would be refused, which the model covers only as a refused write.
- The exhibition lists and the viewer's and slideshow's `loading` flags are not modelled. Neither are the fetches of exhibitions and stalls, beyond taking their results as parameters.
- Webcam capture (`Webcam`, `getScreenshot`, `startCapture`, `toggleCamera`): photos are opaque strings. `capturePhoto` is represented by the three photo methods it dispatches to.
- The `setTimeout` re-set and the two handler calls of the sales category selectors are modelled by their net effect only. The intermediate states on the stale closure are not modelled.
- ParticipantRegistration.RegistrationForm.Submit resets the form at once, not two seconds later, and the `success`/`loading` flags are not modelled.
- `parseInt`/`NaN` are not modelled: quantities and values are integers.
- The clock (`new Date().toISOString()`) is not modelled: today's date is a constructor parameter.
- `toLocaleDateString`, `alert`, `console` and the interval's timing are not modelled.
- HTML `required` and `min="0"` attributes are not modelled. The code performs no such checks, and only the sales page validates rows.
- Row handlers require an index in range because they exist only inside the `map` over existing rows. Out-of-range JavaScript array assignment is not modelled.
- ParticipantRegistration.RegistrationForm.SetInventoryProduct accepts any product name, as the code does. Consistency with the taxonomy is stated by `CategoryThenProductConsistent` for choices from the selector's options.
- The registration form's remaining single-field inputs (exhibition, stall number, organisation, sponsor, accommodation and their "other" fields) are not modelled. Each only sets one field of the record.
- Optional fields (`otherState?`, `gramPanchayat?`, …) are strings: absent and `''` are not distinguished, except for the viewer's stall number.
- Text.Less: `localeCompare` and the default `sort()` are modelled as character-code lexicographic order. That order agrees with the locale order for ISO dates and for plain ASCII category names. Strings are sequences of characters rather than UTF-16 code units.
- DailySales.SortByDate: the contract states order and contents. It does not state that entries with equal dates keep their fetched order (the sort is stable).
- The Firestore result order of a query is taken to be the document order.
- `Home.tsx`, `App.tsx` and `settingsService.ts` (routing, animation, remote settings) are not part of this model.
- The products page's loading/error screen and its product detail view are not modelled. Neither is the slideshow's per-photo opacity and captions.
- The contents of the village tree, the product taxonomy, `indianStates` and `unionTerritories` are parameters.

## Findings

| source | as written | input that shows it | evidently intended | confidence | as-written member | corrected member |
|---|---|---|---|---|---|---|
| src/components/data/DailySales.tsx:96-99 | `handleSubmit` stores `id: ''` in the document (line 161). `{ id: doc.id, ...doc.data() }` then lets that `''` override the document id, so every history entry has id `''`. Opening the edit form on one entry opens it on all, and `saveSaleEdit('')` addresses no document. | store `[d1: {id:'', stallId:'s1', date:'2024-01-15', …}]`, stall `s1` | each entry carries its document id | not executed | DailySales.AsWrittenEditTargetsNoDocument | DailySales.SaveEditChangesExactlyOneEntry |
| src/components/data/RegistrationViewer.tsx:131-135 | the local merge `{ ...reg, ...editForm }` copies the form's `stallNumber: undefined`, so the stall number vanishes locally after a save while the store keeps it | a registration with stall number `'12'`: open the form, save | local state matches the stored document, stall number kept | not executed | RegistrationViewer.AsWrittenMergeBlanksStallNumber | RegistrationViewer.SavedEntryMatchesReload |
| src/components/data/DailySales.tsx:82-85 | `fetchStalls` spreads the registration data, which stores `id: ''` (ParticipantRegistration.tsx:220), over `doc.id`. Every stall option then has value `''`, the value of the "Select Stall" placeholder (line 274). Choosing a stall selects none, so no history loads (71-75). | two registrations `r1`, `r2` of exhibition `e1` written by the registration form | each stall option carries its registration's document id | not executed | DailySales.AsWrittenStallOptionsBlank | DailySales.FetchStallsIds |
| src/components/data/RegistrationViewer.tsx:83-86 | the registration form stores `id: ''` (ParticipantRegistration.tsx:220), and the viewer's spread overrides the document id with it. All fetched registrations share id `''`, so one click expands or edits every stall, and saves address no document. | two documents `r1`, `r2` written by the registration form | each registration carries its document id | not executed | RegistrationViewer.AsWrittenFetchIdsBlank | RegistrationViewer.FetchIdsUnique |
