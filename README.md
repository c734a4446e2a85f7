# Pet adoption store — a Dafny model

This project models the data-consistency core of a pet-adoption mobile app that exists in two divergent
variants: an admin-centred variant (`final-project-group-4-mobapp-main/…`) and an earlier user-centred
variant (`src/…`). Both keep their data in the device's key-value storage.

The core is a store of four collections: pets, adoption applications, saved-pet ids and viewed-pet ids.
The model covers:

- the operations that change the store;
- the circular "next unviewed pet" scan of the browse screen;
- the storage helpers;
- the add-pet, adoption and review forms;
- the email and phone validators and the string formatters.

## How it is modelled

- **Storage.** The key-value storage is the class `KeyValue.Store`. It holds a `map<string, Blob>`, where
  a `Blob` is an already-decoded pet list, application list or id list. Every read, write or removal takes
  a `fails` flag that says whether the platform call throws. A stored value of the wrong shape is treated
  like a JSON value that cannot be used.
- **Clock and randomness.** Every `Date.now()`, `Math.random()` and `new Date()` becomes a parameter
  (`newId`, `now`).
- **Stateful code.** Each context and screen becomes a `class`:
  - `AdoptionStore.Store`, `ApprovalStore.Context` and `PetContext.Context`;
  - `HomeScreen.Browser`, `AddPetModal.Modal`, `AddPetScreen.Screen`, `ReviewApplications.Screen` and
    `SavedPetScreen.Screen`.

  Their fields are the React state. Each operation is a method that writes storage and then replaces
  fields, in the same order as the source.
- **List transforms.** The transforms those methods apply are functions: map, filter and spread become
  `Seqs.Filter`, `Seqs.MapWhere`, `+` and `Seqs.Toggle`. Lemmas state what those functions promise.
- **Regex validators.** Each validator is modelled as a recogniser:
  - the email regex becomes an explicit scan around the first `@`, proved equal to the regex's
    existential reading;
  - the phone regex becomes a deterministic parser with a render function and a round trip between them.

## Model

| member | source | states |
|---|---|---|
| Types.DecisionStatus | final-project-group-4-mobapp-main/src/screens/admin/ApplicationReviewScreen.tsx:21 | a decision leads to approved or rejected, never back to pending, and to approved exactly for approve |
| Types.MergeNothing | src/context/PetContext.tsx:38-41 | an update with no keys leaves a pet unchanged (spread of an empty object) |
| Types.MergeIdempotent | src/context/PetContext.tsx:38-41 | spreading the same update twice is the same as once |
| Seqs.Filter | final-project-group-4-mobapp-main/src/context/ApplicationContext.tsx:148-150 | a filtered list is no longer than its input and holds exactly the elements of the input that pass |
| Seqs.FilterIsSubsequence | final-project-group-4-mobapp-main/src/context/ApplicationContext.tsx:148-150 | filtering keeps the relative order of the remaining elements |
| Seqs.FilterMultiset | final-project-group-4-mobapp-main/src/context/ApplicationContext.tsx:103 | a filter keeps each passing element as many times as it occurs, and drops every failing one |
| Seqs.FilterFilter | final-project-group-4-mobapp-main/src/context/ApplicationContext.tsx:82-84 | filtering by two predicates in turn is filtering once by their conjunction |
| Seqs.Toggle | final-project-group-4-mobapp-main/src/context/ApplicationContext.tsx:207-210 | membership of the toggled element flips, and every other element keeps its membership |
| Seqs.ToggleTwice | final-project-group-4-mobapp-main/src/context/ApplicationContext.tsx:207-210 | toggling twice restores membership of every element, and restores the list itself when the element was absent |
| Seqs.RemoveKeepsOthers | final-project-group-4-mobapp-main/src/context/ApplicationContext.tsx:149-150 | removing an id keeps the order and the multiplicity of every other element |
| AdoptionStore.SavedPets | final-project-group-4-mobapp-main/src/context/ApplicationContext.tsx:82-84 | the saved view holds exactly the pets whose id is saved, in pet-list order |
| AdoptionStore.MarkViewed | final-project-group-4-mobapp-main/src/context/ApplicationContext.tsx:89-90 | the id ends up in the list; the old list is a prefix; the length grows by one exactly when the id was absent |
| AdoptionStore.MarkViewedProperties | final-project-group-4-mobapp-main/src/context/ApplicationContext.tsx:89-92 | marking is idempotent: a present id changes nothing, an absent one is appended once, and no duplicate is introduced |
| AdoptionStore.ResetViewedKeepsSaved | final-project-group-4-mobapp-main/src/context/ApplicationContext.tsx:103-105 | after a reset the viewed ids are exactly the old viewed ids that are saved, in the same order and with the same multiplicities, and a list without duplicates stays without |
| AdoptionStore.WithoutPet | final-project-group-4-mobapp-main/src/context/ApplicationContext.tsx:148 | the pet list after a delete holds exactly the pets with another id |
| AdoptionStore.DeletePetCascade | final-project-group-4-mobapp-main/src/context/ApplicationContext.tsx:148-163 | a delete removes the id from pets, saved ids and viewed ids, keeps the order of everything else, and leaves the applications alone |
| AdoptionStore.DeletePetKeepsOthers | final-project-group-4-mobapp-main/src/context/ApplicationContext.tsx:148-150 | a delete keeps every other pet and every other id with its multiplicity |
| AdoptionStore.SavedPetsAfterDelete | final-project-group-4-mobapp-main/src/context/ApplicationContext.tsx:146-150 | after a delete the saved view is the old saved view without that pet |
| AdoptionStore.AddedPets | final-project-group-4-mobapp-main/src/context/ApplicationContext.tsx:115-122 | adding appends exactly one pet, leaves the earlier pets unchanged, and gives the new pet status available, the new id, the creation time and the supplied fields |
| AdoptionStore.AddedPetsUnique | final-project-group-4-mobapp-main/src/context/ApplicationContext.tsx:115-122 | adding under an id no pet has keeps pet ids unique |
| AdoptionStore.UpdatedPets | final-project-group-4-mobapp-main/src/context/ApplicationContext.tsx:134-136 | an update keeps the length, merges the update and a new update time into the matching pets only, and changes nothing for an unknown id |
| AdoptionStore.SubmittedApplications | final-project-group-4-mobapp-main/src/context/ApplicationContext.tsx:173-180 | a submission keeps the earlier applications and appends exactly the supplied application, with every field it carried, under the new id, status pending and the submission date |
| AdoptionStore.ReviewedApplications | final-project-group-4-mobapp-main/src/context/ApplicationContext.tsx:192-194 | a decision sets status and review date on the applications with the id, and leaves all others unchanged |
| AdoptionStore.ToggleSavedTwice | final-project-group-4-mobapp-main/src/context/ApplicationContext.tsx:207-210 | a toggle flips whether the pet is saved, and two toggles restore the saved set |
| AdoptionStore.WriteKeepsSynced | final-project-group-4-mobapp-main/src/context/ApplicationContext.tsx:50-74 | when storage and memory agree, a successful write of a key followed by taking that list into memory keeps them in agreement |
| AdoptionStore.LoadAfterClear | final-project-group-4-mobapp-main/src/context/ApplicationContext.tsx:224-237 | once the four keys are removed, a reload yields the seed pets and three empty lists |
| AdoptionStore.ToggleReloadIsHarmless | final-project-group-4-mobapp-main/src/context/ApplicationContext.tsx:212-216 | when storage and memory agree, the reload after a toggle reads back exactly the toggled state |
| AdoptionStore.Store.constructor | final-project-group-4-mobapp-main/src/context/ApplicationContext.tsx:40-47 | the store starts with four empty lists, loading, and no error |
| AdoptionStore.Store.LoadData | final-project-group-4-mobapp-main/src/context/ApplicationContext.tsx:50-74 | a load takes all four lists from storage (seed pets and empty lists for absent keys); a failure keeps the lists and sets the load error; loading ends false |
| AdoptionStore.Store.MarkPetAsViewed | final-project-group-4-mobapp-main/src/context/ApplicationContext.tsx:87-98 | an already viewed id writes nothing; otherwise the appended list is written and taken only if the write succeeds, else the error is set and the failure returned |
| AdoptionStore.Store.ResetViewedPets | final-project-group-4-mobapp-main/src/context/ApplicationContext.tsx:100-110 | the saved-only viewed list is written and then taken; a failed write leaves memory unchanged and sets the error |
| AdoptionStore.Store.AddPet | final-project-group-4-mobapp-main/src/context/ApplicationContext.tsx:113-130 | the list with the new pet is written and then taken; a failed write leaves memory unchanged, sets the error and is returned |
| AdoptionStore.Store.UpdatePet | final-project-group-4-mobapp-main/src/context/ApplicationContext.tsx:132-144 | the updated list is written and then taken; a failed write leaves memory unchanged and sets the error |
| AdoptionStore.Store.DeletePet | final-project-group-4-mobapp-main/src/context/ApplicationContext.tsx:146-168 | the three lists are written, each unless its own write fails; memory takes all three only when none fails |
| AdoptionStore.Store.SubmitApplication | final-project-group-4-mobapp-main/src/context/ApplicationContext.tsx:171-188 | the list with the new pending application is written and then taken; a failure leaves memory unchanged and sets the error |
| AdoptionStore.Store.UpdateApplicationStatus | final-project-group-4-mobapp-main/src/context/ApplicationContext.tsx:190-202 | the decided list is written and then taken; pets are neither read nor changed; an unknown id is not an error |
| AdoptionStore.Store.ToggleSavedPet | final-project-group-4-mobapp-main/src/context/ApplicationContext.tsx:205-221 | the toggled id list is written; on success memory is then reloaded from storage (a failed reload keeps the toggled list and sets the load error); a failed write changes nothing but the error |
| AdoptionStore.Store.ClearAllData | final-project-group-4-mobapp-main/src/context/ApplicationContext.tsx:224-237 | each of the four keys is removed unless its removal fails; only when none fails is the store reloaded, to the seed pets and empty lists |
| ApprovalStore.FindApplication | src/context/ApplicationContext.tsx:3 | the result is None exactly when no application has the id, and otherwise is the first one that has it |
| ApprovalStore.AdoptedPets | src/context/ApplicationContext.tsx:14-16 | every pet with the application's pet id becomes adopted, and every other pet is unchanged |
| ApprovalStore.DecidedConsistent | src/context/ApplicationContext.tsx:3-16 | an unknown id is an error; a success decides the applications with the id; a rejection leaves pets untouched; an approval adopts the pet of the first matching application |
| ApprovalStore.Context.UpdateApplicationStatus | src/context/ApplicationContext.tsx:1-27 | an unknown id fails with "Application not found" before any change; an approval writes and takes the pets first, then the applications, so a failed second write leaves the pet adopted; no guard on the current status |
| PetContext.MergedPets | src/context/PetContext.tsx:39-41 | an update keeps the length, merges the update into the matching pets only, and leaves the others unchanged |
| PetContext.MergedPetsProperties | src/context/PetContext.tsx:38-43 | an update that does not set the id keeps every id and their uniqueness, is idempotent, and the empty update changes nothing |
| PetContext.Context.LoadPets | src/context/PetContext.tsx:19-26 | an absent key loads []; a failed read rejects before anything is set, so loading stays on |
| PetContext.Context.SavePets | src/context/PetContext.tsx:28-31 | memory takes the list only after the write succeeds |
| PetContext.Context.AddPet | src/context/PetContext.tsx:33-36 | exactly one pet, with the supplied fields and the new id, is appended after the earlier ones |
| PetContext.Context.UpdatePet | src/context/PetContext.tsx:38-43 | the merged list is saved |
| PetContext.Context.DeletePet | src/context/PetContext.tsx:45-47 | after a successful delete no pet has the id and the others keep their order |
| HomeScreen.FirstUnviewedIndex | final-project-group-4-mobapp-main/src/screens/user/HomeScreen.tsx:20-24 | the index is that of the first pet not yet viewed, or 0 when every pet is viewed |
| HomeScreen.CandidatesCoverAll | final-project-group-4-mobapp-main/src/screens/user/HomeScreen.tsx:39-40 | the candidates (current + i) mod n for i = 1..n reach every index |
| HomeScreen.ScanNext | final-project-group-4-mobapp-main/src/screens/user/HomeScreen.tsx:36-50 | the scan picks the first candidate, in the order i = 1..n, whose pet is not in the given viewed list, and it lies in [0, n); when none is found the index is unchanged; a pet is found exactly when some pet is unviewed |
| HomeScreen.AllViewedMeansEveryPet | final-project-group-4-mobapp-main/src/screens/user/HomeScreen.tsx:78-92 | with unique pet ids and distinct viewed ids that all name pets, the "seen all" screen (non-empty list, equal lengths) shows exactly when every pet has been viewed |
| HomeScreen.MarkViewedKeepsInvariant | final-project-group-4-mobapp-main/src/context/ApplicationContext.tsx:87-98 | marking a pet of the store as viewed keeps pet ids unique, viewed ids distinct and every viewed id naming a pet |
| HomeScreen.AddPetKeepsInvariant | final-project-group-4-mobapp-main/src/context/ApplicationContext.tsx:113-130 | adding a pet under a fresh id keeps the premises of the "seen all" characterisation |
| HomeScreen.DeletePetKeepsInvariant | final-project-group-4-mobapp-main/src/context/ApplicationContext.tsx:146-168 | deleting a pet keeps the premises of the "seen all" characterisation, since its id leaves the viewed list |
| HomeScreen.ResetViewedKeepsInvariant | final-project-group-4-mobapp-main/src/context/ApplicationContext.tsx:100-110 | resetting the viewed list keeps the premises of the "seen all" characterisation |
| HomeScreen.Browser.SyncToFirstUnviewed | final-project-group-4-mobapp-main/src/screens/user/HomeScreen.tsx:20-24 | the effect moves the card index to the first unviewed pet |
| HomeScreen.Browser.Advance | final-project-group-4-mobapp-main/src/screens/user/HomeScreen.tsx:26-53 | the card on top is marked viewed first; the new index is then the first candidate (old index + i) mod n, for i = 1..n, whose pet is not in the captured viewed list, and stays when every pet is viewed; only the viewed list and the index can change |
| HomeScreen.Browser.PassCard | final-project-group-4-mobapp-main/src/screens/user/HomeScreen.tsx:151 | a pass marks the card on top as viewed (unless that write fails), then moves to the first candidate (old index + i) mod n, for i = 1..n, whose pet was not viewed before the pass, or stays when every pet was viewed; nothing but the viewed list changes in the store or in storage |
| HomeScreen.Browser.Save | final-project-group-4-mobapp-main/src/screens/user/HomeScreen.tsx:158-161 | a save writes the toggled saved list, then advances; a failed toggle stops before advancing and changes nothing |
| HomeScreen.Browser.OnSwipe | final-project-group-4-mobapp-main/src/screens/user/HomeScreen.tsx:60-68 | a right swipe saves and a left swipe only passes, leaving the saved ids alone |
| Validators.IndexOf | src/utils/helpers.ts:51 | the index is that of the first occurrence of the character, or the length when there is none |
| Validators.ValidateEmailMatchesPattern | final-project-group-4-mobapp-main/src/utils/helpers.ts:70-73 | the scan accepts exactly the strings the email regex matches: one or more non-space non-`@` characters, `@`, then a domain with a `.` that is neither first nor last |
| Validators.EmailAcceptSet | src/utils/helpers.ts:50-53 | an accepted email has exactly one `@`, no whitespace, a non-empty local part, and a `.` in the domain that is neither its first nor its last character, and every such string is accepted |
| Validators.ParsePhoneSound | src/utils/helpers.ts:55-58 | whatever the phone pattern accepts splits into well-formed parts that render back to the input |
| Validators.ParsePhoneComplete | src/utils/helpers.ts:55-58 | every well-formed phone rendering is accepted and parses back to its parts |
| Validators.DigitsOfRendered | src/utils/helpers.ts:56 | the digits of an accepted phone are its area, exchange and line groups, in order |
| Validators.PhoneShape | final-project-group-4-mobapp-main/src/utils/helpers.ts:75-78 | an accepted phone has 10 to 12 digits, a `+` only as its first character, and otherwise only `(`, `)`, `-`, `.` or whitespace |
| Formatters.FormatPhoneKeepsDigits | src/utils/helpers.ts:65-69 | formatting never changes the digits of a phone number |
| Formatters.FormatPhoneIdempotent | src/utils/helpers.ts:65-69 | formatting a formatted number changes nothing |
| Formatters.FormattedPhoneIsValid | src/utils/helpers.ts:65-69 | a ten-digit number comes out as "(ddd) ddd-dddd", which the phone check accepts; any other input comes out unchanged |
| Formatters.CapitalizeWordsSpec | src/utils/helpers.ts:61-63 | capitalising keeps the length and upper-cases exactly the word-initial characters, so only word-initial lowercase letters change |
| Formatters.CapitalizeWordsIdempotent | src/utils/helpers.ts:61-63 | capitalising twice is the same as once |
| Formatters.CalculateAge | src/utils/helpers.ts:72-83 | the age is the year difference, one less while this year's birthday is still ahead: the last anniversary reached |
| SavedPetHelpers.WithPet | src/utils/helpers.ts:18-19 | a pet already saved under the id leaves the list unchanged; otherwise exactly this pet is appended; either way a pet with the id is saved afterwards |
| SavedPetHelpers.WithPetUnique | src/utils/helpers.ts:18-20 | saving keeps saved ids unique, and saving the same pet again changes nothing |
| SavedPetHelpers.WithoutId | src/utils/helpers.ts:31 | no pet with the id is left, and every other pet keeps its membership |
| SavedPetHelpers.WithoutIdKeepsOrder | src/utils/helpers.ts:31 | removal keeps the others in order and keeps the ids unique |
| SavedPetHelpers.GetSavedPets | src/utils/helpers.ts:39-47 | an absent key gives []; a failed read is rethrown |
| SavedPetHelpers.SavePetToStorage | src/utils/helpers.ts:15-26 | a pet whose id is already saved causes no write; otherwise the list with the pet appended is written; read and write failures are rethrown |
| SavedPetHelpers.RemovePetFromStorage | src/utils/helpers.ts:28-37 | the list without the id is written; failures are rethrown |
| StorageHelpers.GetPets | final-project-group-4-mobapp-main/src/utils/helpers.ts:19-27 | the stored pets, or [] when the key is absent or the read fails |
| StorageHelpers.GetApplications | final-project-group-4-mobapp-main/src/utils/helpers.ts:39-47 | the stored applications, or [] when the key is absent or the read fails |
| StorageHelpers.GetSavedPetIds | final-project-group-4-mobapp-main/src/utils/helpers.ts:59-67 | the stored ids, or [] when the key is absent or the read fails |
| StorageHelpers.SavePets | final-project-group-4-mobapp-main/src/utils/helpers.ts:10-17 | the pets are written, and a failed write is passed to the caller |
| StorageHelpers.SaveApplications | final-project-group-4-mobapp-main/src/utils/helpers.ts:30-37 | the applications are written, and a failed write is passed to the caller |
| StorageHelpers.SavePetIds | final-project-group-4-mobapp-main/src/utils/helpers.ts:50-57 | the ids are written, and a failed write is passed to the caller |
| StorageHelpers.Migrated | final-project-group-4-mobapp-main/src/utils/helpers.ts:100-113 | with no legacy value, or a failed read or save, the store is unchanged; otherwise the legacy value lands under the pets key, and the legacy key goes only when its removal succeeds, keeping its value when it fails; every other key keeps its value |
| StorageHelpers.MigrateOnce | final-project-group-4-mobapp-main/src/utils/helpers.ts:103-109 | after a completed migration a second one changes nothing |
| StorageHelpers.MigrateData | final-project-group-4-mobapp-main/src/utils/helpers.ts:100-113 | the migration saves before removing and swallows every failure |
| AddPetModal.CollectErrors | final-project-group-4-mobapp-main/src/screens/admin/AddPetModal.tsx:75-86 | one error per missing required field (name, species, age, gender, image), with its message; breed, size, description and temperament never get one; the form passes exactly when all five are present |
| AddPetModal.AddRouteForcesAvailable | final-project-group-4-mobapp-main/src/screens/admin/AddPetModal.tsx:93-106 | on the add route the stored pet is available, under the new id, with the form's name and temperament, whatever status or id the form held |
| AddPetModal.EditRouteForcesAvailable | final-project-group-4-mobapp-main/src/screens/admin/AddPetModal.tsx:93-104 | on the edit route every pet with the edited id becomes available, keeps that id and takes the form's name |
| AddPetModal.Modal.ValidateForm | final-project-group-4-mobapp-main/src/screens/admin/AddPetModal.tsx:75-86 | the modal's errors become exactly the missing fields |
| AddPetModal.Modal.HandleSubmit | final-project-group-4-mobapp-main/src/screens/admin/AddPetModal.tsx:88-113 | an invalid form calls neither add nor update; a form whose pet has an id goes to update, any other to add; loading ends false; the modal closes only on success |
| AddPetModal.Modal.ToggleTemperament | final-project-group-4-mobapp-main/src/screens/admin/AddPetModal.tsx:115-122 | a present trait is removed (every occurrence), an absent one appended |
| AddPetScreen.ImageOrDefault | src/screens/admin/AddPetScreen.tsx:43 | the image is the picked one, or "default_image_uri" when none was picked |
| AddPetScreen.NewPet | src/screens/admin/AddPetScreen.tsx:37-45 | the new pet carries the five fields, the image or its placeholder, and status available |
| AddPetScreen.Screen.HandleSubmit | src/screens/admin/AddPetScreen.tsx:31-55 | any empty required field refuses the submission and changes nothing; otherwise the pet list with the new pet is written to storage and taken unless the write fails, all six fields are reset, and loading is untouched |
| AdoptionForm.Violations | src/screens/user/AdoptionFormScreen.tsx:12-27 | the schema reports one message per failing key, and none exactly when every text answer is present, the email passes the email rule, and the terms are agreed to |
| AdoptionForm.RecordAsWritten | src/screens/user/AdoptionFormScreen.tsx:59-65 | the pushed record has the pet's id and name, status pending, and no id of its own |
| AdoptionForm.Record | src/screens/user/AdoptionFormScreen.tsx:59-65 | the record as pushed, plus an id |
| AdoptionForm.DecodeApplications | src/screens/user/AdoptionFormScreen.tsx:56-57 | a missing stored list is read as [] |
| AdoptionForm.Submit | src/screens/user/AdoptionFormScreen.tsx:54-78 | a form the schema rejects is not submitted; otherwise the stored list keeps its order and gains exactly one pending record at its end; failures write nothing |
| ReviewApplications.PendingOnly | src/screens/admin/ReviewApplicationsScreen.tsx:30-32 | the loaded list holds exactly the pending applications |
| ReviewApplications.Decided | src/screens/admin/ReviewApplicationsScreen.tsx:61-70 | the applications whose id equals the given one take the decision and a review time; all others are unchanged |
| ReviewApplications.IdlessDecisionDecidesAll | src/screens/admin/ReviewApplicationsScreen.tsx:61-62 | two form submissions as written share the absent id, so deciding the first decides the second too |
| ReviewApplications.SubmitKeepsIdsDistinct | src/screens/user/AdoptionFormScreen.tsx:59-65 | appending a record under a fresh id keeps application ids distinct |
| ReviewApplications.DecisionHitsExactlyOne | src/screens/admin/ReviewApplicationsScreen.tsx:61-70 | with distinct ids a decision changes exactly the application it names |
| ReviewApplications.Screen.FetchApplications | src/screens/admin/ReviewApplicationsScreen.tsx:20-50 | the shown list is the pending part of the stored list ([] when absent); a failure is swallowed and keeps the list; loading ends false |
| ReviewApplications.Screen.HandleDecision | src/screens/admin/ReviewApplicationsScreen.tsx:52-83 | the decided list is written; only after the write succeeds does the decided application leave the shown list, whose other entries keep their order |
| ReviewApplications.DisplayedAfterDecision | src/screens/admin/ReviewApplicationsScreen.tsx:76 | after a decision the shown list holds every other application, in order |
| SavedPetScreen.Screen.LoadSavedPets | src/screens/user/SavedPetScreen.tsx:16-30 | a stored list replaces the shown one; an absent key or a failure leaves it unchanged |
| SavedPetScreen.Screen.RemovePet | src/screens/user/SavedPetScreen.tsx:32-40 | the shown list loses the pet before the write, keeps the others in order, and a failed write is swallowed |
| SavedPetScreen.FailedRemoveDiverges | src/screens/user/SavedPetScreen.tsx:34-36 | when the write fails after a removal, the shown list and storage disagree |
| ApplicationReview.WithStatus | final-project-group-4-mobapp-main/src/screens/admin/ApplicationReviewScreen.tsx:13 | the filtered list holds exactly the applications with the selected status |
| ApplicationReview.WithStatusKeepsOrder | final-project-group-4-mobapp-main/src/screens/admin/ApplicationReviewScreen.tsx:13 | the filtered list keeps the store's order and multiplicities |
| ApplicationReview.PendingBadge | final-project-group-4-mobapp-main/src/screens/admin/ApplicationReviewScreen.tsx:51 | the badge counts the pending applications: at most all of them, and zero exactly when none is pending |
| ApplicationReview.FiltersPartition | final-project-group-4-mobapp-main/src/screens/admin/ApplicationReviewScreen.tsx:9-13 | the three status filters together hold every application exactly as often as the store does |
| ApplicationReview.Offered | final-project-group-4-mobapp-main/src/screens/admin/ApplicationReviewScreen.tsx:109-126 | approve and reject are offered on a pending application and nothing on any other; no offered decision leads back to pending |
| AdminDashboard.ComputeStats | final-project-group-4-mobapp-main/src/screens/admin/AdminDashboard.tsx:31-37 | total is the number of pets; available is at most total, and equals it exactly when every pet is available; pending equals the pending badge and is at most the number of applications |
| AdminDashboard.StatsAfterAddPet | final-project-group-4-mobapp-main/src/screens/admin/AdminDashboard.tsx:31-37 | once a pet is added, the recomputed stats show one more pet and one more available pet |
| AdminDashboard.StatsAfterSubmit | final-project-group-4-mobapp-main/src/screens/admin/AdminDashboard.tsx:31-37 | once an application is submitted, the recomputed stats show one more pending application |
| AdminDashboard.StatsAfterDecision | final-project-group-4-mobapp-main/src/screens/admin/AdminDashboard.tsx:31-37 | after a decision the recomputed pending count never rises and the pet counts stay |

## Left out

- JSON serialisation, the internals of the storage platform, and parallel `Promise.all` scheduling are not
  modelled. A stored value is an already-decoded list. One of the wrong shape counts as a value that cannot
  be parsed. Parallel writes touch distinct keys and are modelled one after another.
- Stale closures over React state are left out. Each operation reads the state current when it runs. The
  one exception is the browse scan, which uses the lists captured when its handler was made.
- Rendering, styles, alerts, navigation (`goBack`, `navigate`), `Animated` and `PanResponder` are left
  out. A swipe past the threshold is a boolean right/left input, because gesture deltas are floats.
- The `refreshing` and `selectedApp` screen state of the admin review screen is left out: it is
  presentation only.
- Date parsing and locale formatting are left out: `formatDate`, `formatDateTime`, `new Date(birthdate)`,
  and the review screen's conversion of stored date strings. Times are integers, and `calculateAge`
  takes already-parsed calendar dates.
- `getImageSize` and the image picker are left out because they are native calls. A picked image is an
  optional string.
- The schema library's email rule is a parameter (`isEmail`), because its definition lives in the
  library. Its boolean `required` rules always hold for a boolean, so they are not modelled.
- The adoption form's schema (src/screens/user/AdoptionFormScreen.tsx:15) requires only a non-empty phone
  and never calls `validatePhone`. The model follows the code.
- The remote document store, authentication, navigation stacks and seed data are left out. The seed pets
  are an opaque parameter of the admin store.
- `final-project-group-4-mobapp-main/src/types/index.ts` is not part of this model. `Types.Pet` unites
  the pet fields of both variants.
- `HomeScreen.AllViewedMeansEveryPet` holds under `HomeScreen.BrowseInvariant`, which adding, deleting,
  marking and resetting preserve. A load takes whatever storage holds, and an update may set a pet's id,
  so neither is shown to keep it.
- `AdoptionStore.Store.ClearAllData` runs the reload to completion, although the source does not await it.
- `HomeScreen.Browser.Save` does not state the store after a successful save, because that state depends
  on the reload. It states only the written saved list, and that a failed toggle does not advance.
- `HomeScreen.Browser.OnSwipe` only states the dispatch. The effects are those of `Save` and `PassCard`.
- `AddPetModal.Modal.HandleSubmit` does not state which storage keys were written. It states the
  in-memory pets, which change only after a successful write.
- `AdoptionForm.Submit` stores the record under an id (see Findings). As written, the source pushes the
  record without one.

## Findings

| source | as written | input that shows it | evidently intended | confidence | as-written member | corrected member |
|---|---|---|---|---|---|---|
| src/screens/admin/ReviewApplicationsScreen.tsx:61-76 | adoption-form records are stored without an `id`, and a decision matches on `app.id === appId` | two form submissions; approving the first makes `undefined === undefined` true for both, so both are approved and both leave the list | each stored application carries its own id, so a decision updates exactly one application | high (not executed) | ReviewApplications.IdlessDecisionDecidesAll | ReviewApplications.DecisionHitsExactlyOne |
