# siljeon: drive credentials, file catalogue and accounts, in Dafny

siljeon is a web application: a React front end and a Spring back end. A
signed-in user registers API credentials ("keys") for a Dooray drive and
connects or disconnects them. The front end then shows a catalogue of
the files in the connected drives, with recent, favourite and drive tabs.
This project models the core of both halves:

- **Drive tree and catalogue** (`DriveTree`, `HomeScreen`, `UseFiles`).
  - The tree is credentials → drives → folders → sub-folders → files. It
    is flattened by a pre-order walk.
  - The tab views are the recent order (a stable sort by a fixed
    vocabulary of relative-time labels) and the favourites filter, each
    cut to eight files. The drive tab hides drives and top-level folders
    named `root` or `trash`.
  - Toggling a favourite flips the flag of every file with that id.
- **Key list on the client** (`ApiKeys`, `UseApiKeys`, `ApiConnectionStatus`,
  `SettingsFeature`, `SettingsComponent`, `ApiKeyModal`).
  - The shared key record and the list transformations: connect one,
    disconnect one, disconnect all, remove by URL.
  - The state hooks and the two settings screens as classes whose
    methods update their fields.
  - The add-key dialog's state machine.
  - Token masking and date formatting.
- **Back end** (`Entities`, `Spring`, `UserApiService`, `UserService`,
  `UserApiController`, `UserController`, `DoorayController`).
  - The two JPA entities.
  - The repositories as tables held by a class, with derived queries
    compared by equality (a `null` argument matches `NULL`).
  - The single-result rule for derived queries.
  - The controllers' status codes and messages.
  - The session attribute `user`.

`Js` holds the JavaScript built-ins the front end relies on:
- `slice` with negative indices and `repeat` with its `RangeError`
- `trim` with the ECMAScript white-space set, `padStart` and `String(n)`
- `filter`, `map` and `some`
- the stable `Array.prototype.sort` (section 23.1.3.30 of ECMA-262)

Modelling conventions:
- A `fetch` outcome is `Response<T>`: either `Answered(ok, body)`, where
  `body` is `None` when `res.json()` fails, or `Rejected`.
- An optional JSON or Java field is an `Option`.
- A repository or service that throws is answered with 500.

## Model

| member | source | states |
|---|---|---|
| DriveTree.TraverseFolder | SS/frontend/src/components/HomeScreen.tsx:110-113 | appending a folder's walk to the accumulator gives the accumulator followed by the folder's files in pre-order |
| DriveTree.WalkFolders | SS/frontend/src/components/HomeScreen.tsx:116 | walking a run of top-level folders appends exactly their pre-order files to what was collected |
| DriveTree.WalkDrives | SS/frontend/src/components/HomeScreen.tsx:115-117 | walking a credential's drives appends exactly the files of each drive in turn |
| DriveTree.FlattenDrives | SS/frontend/src/components/HomeScreen.tsx:108-120 | the loop over credentials, drives and folders yields exactly the pre-order file sequence of the whole tree |
| DriveTree.ForestFilesAppend | SS/frontend/src/components/HomeScreen.tsx:112 | walking two runs of sibling folders gives the walk of the first run followed by that of the second |
| DriveTree.DrivesFilesAppend | SS/frontend/src/components/HomeScreen.tsx:115-117 | the files of two drive lists are the files of the first list followed by those of the second |
| DriveTree.AllDriveFilesAppend | SS/frontend/src/components/HomeScreen.tsx:114-118 | the catalogue of two credential lists is the catalogue of the first followed by that of the second |
| DriveTree.FolderFilesCount | SS/frontend/src/components/HomeScreen.tsx:110-113 | the walk of a folder lists exactly as many files as the folder and all its descendants hold |
| DriveTree.ForestFilesCount | SS/frontend/src/components/HomeScreen.tsx:112 | the walk of a run of folders lists exactly as many files as the run holds at every depth |
| DriveTree.FolderFilesMembership | SS/frontend/src/components/HomeScreen.tsx:110-113 | a file is in a folder's walk if and only if the folder or one of its descendants holds it |
| DriveTree.ForestFilesMembership | SS/frontend/src/components/HomeScreen.tsx:112 | a file is in the walk of a run of folders if and only if one of those folders holds it at some depth |
| DriveTree.FolderFilesPreOrder | SS/frontend/src/components/HomeScreen.tsx:111-112 | a folder's own files come first, then the sub-folders' walks in their order, at every split point |
| DriveTree.ReservedNamesNotExcluded | SS/frontend/src/features/files/useFiles.ts:22-32 | a drive and folder named `root` or `trash` are walked like any other: their files reach the catalogue (a concrete instance; the general fact is `FolderFilesMembership`, since `Holds` reads no drive or folder name) |
| HomeScreen.AllFiles | SS/frontend/src/components/HomeScreen.tsx:122 | the catalogue is the local files, unchanged and first, then exactly the drive files in walk order: no file is lost or added, and none is deduplicated |
| HomeScreen.IndexOf | SS/frontend/src/components/HomeScreen.tsx:128 | `indexOf` gives -1 exactly for an absent label, otherwise the first position holding it |
| HomeScreen.Rank | SS/frontend/src/components/HomeScreen.tsx:127-128 | a file's rank lies in -1..5 and is -1 exactly when its label is outside the six-label vocabulary |
| HomeScreen.RecentOrder | SS/frontend/src/components/HomeScreen.tsx:125-129 | the sorted copy has as many files as the catalogue |
| HomeScreen.RecentOrderSpec | SS/frontend/src/components/HomeScreen.tsx:125-129 | the recent view is ordered by rank, is a permutation of the catalogue, and keeps the catalogue order among files of equal rank |
| HomeScreen.UnknownLabelsFirst | SS/frontend/src/components/HomeScreen.tsx:127-128 | every file with an unrecognised label comes before every file with a recognised one |
| HomeScreen.Favorites | SS/frontend/src/components/HomeScreen.tsx:130 | the favourites view is never longer than the catalogue, and each of its files is in the catalogue with a truthy flag |
| HomeScreen.FavoritesSpec | SS/frontend/src/components/HomeScreen.tsx:130 | a file is a favourite view entry if and only if it is in the catalogue with a truthy flag, and the filter keeps catalogue order |
| HomeScreen.TabContent | SS/frontend/src/components/HomeScreen.tsx:195-206 | the drive tab has no list; the recent and favourites tabs show the first min(8, n) entries of their view |
| HomeScreen.VisibleFolders | SS/frontend/src/components/HomeScreen.tsx:290-291 | the drive tab lists no more top-level folders than the drive has, each one of the drive's own and none named `root` or `trash` |
| HomeScreen.VisibleDrives | SS/frontend/src/components/HomeScreen.tsx:279-291 | the drive tab lists no more drives than the credential has, and no listed drive or top-level folder is named `root` or `trash` |
| HomeScreen.VisibleFoldersSpec | SS/frontend/src/components/HomeScreen.tsx:290-291 | a top-level folder is listed if and only if the drive has it under a name that is not reserved; it is listed whole, and the order is kept |
| HomeScreen.VisibleDrivesSpec | SS/frontend/src/components/HomeScreen.tsx:279-280 | a drive is listed if and only if the credential has it under a name that is not reserved, shown with its visible folders; the order is kept |
| HomeScreen.ReservedHiddenOnlyOnDriveTab | SS/frontend/src/components/HomeScreen.tsx:279-291 | a `root` or `trash` drive or top-level folder is hidden on the drive tab while its files are in the catalogue, and a sub-folder of that name is still shown |
| Js.SortByIsStableSort | SS/frontend/src/components/HomeScreen.tsx:125 | the sort the recent view uses is ordered, a permutation of its input, and stable |
| UseFiles.ToggleFavorite | SS/frontend/src/features/files/useFiles.ts:66 | toggling keeps the length and changes only the favourite flag, and only of files with that id |
| UseFiles.ToggleFavoriteAt | SS/frontend/src/features/files/useFiles.ts:65-67 | toggling keeps the length, changes only the flag, flips its truthiness for files with that id, and leaves other files as they were |
| UseFiles.ToggleFavoriteUnknownId | SS/frontend/src/features/files/useFiles.ts:65-67 | toggling an id no file has leaves the list unchanged |
| UseFiles.ToggleFavoriteTwice | SS/frontend/src/features/files/useFiles.ts:65-67 | toggling twice restores every flag's truthiness, and gives back the list itself if and only if every file with that id had a flag set |
| UseFiles.FilesHook.constructor | SS/frontend/src/features/files/useFiles.ts:35-37 | no files, the preview closed, no selected file |
| UseFiles.FilesHook.Load | SS/frontend/src/features/files/useFiles.ts:39-53 | an ok response that parses replaces the files by the flattened tree; any failure keeps the list |
| UseFiles.FilesHook.OnFileSelect | SS/frontend/src/features/files/useFiles.ts:55-58 | selects the file and opens the preview, files unchanged |
| UseFiles.FilesHook.HandleClosePreview | SS/frontend/src/features/files/useFiles.ts:60-63 | closes the preview and clears the selection, files unchanged |
| UseFiles.FilesHook.OnToggleFavorite | SS/frontend/src/features/files/useFiles.ts:65-67 | the files become the toggled list; the preview state is untouched |
| ApiKeys.SetConnection | SS/frontend/src/features/settings/useApiKeys.ts:53-57 | marking a URL keeps the length and changes at most the `isConnected` field, and only of keys with that URL |
| ApiKeys.DisconnectAll | SS/frontend/src/features/settings/useApiKeys.ts:40 | disconnecting all keeps the length and leaves no key connected |
| ApiKeys.ConnectedKeys | SS/frontend/src/features/settings/useApiKeys.ts:28-29 | the connected list is never longer than the key list, and each of its keys is in the list and connected |
| ApiKeys.HasConnected | SS/frontend/src/features/settings/useApiKeys.ts:25-26 | `some(isConnected)` holds exactly when some key of the list is connected |
| ApiKeys.WithoutUrl | SS/frontend/src/components/SettingsScreen.tsx:201 | removal by URL never lengthens the list, and every key left was in it with another URL |
| ApiKeys.SetConnectionAt | SS/frontend/src/features/settings/useApiKeys.ts:53-57 | setting the flag for a URL changes exactly the flag of the keys with that URL and nothing else |
| ApiKeys.SetConnectionUnknownUrl | SS/frontend/src/features/settings/useApiKeys.ts:53-57 | setting the flag for a URL no key has leaves the list unchanged |
| ApiKeys.DisconnectAllAt | SS/frontend/src/features/settings/useApiKeys.ts:40 | each key keeps its fields and gets `isConnected: false` |
| ApiKeys.DisconnectAllLeavesNoneConnected | SS/frontend/src/features/settings/useApiKeys.ts:40 | after disconnecting all, no key is connected and the connected list is empty |
| ApiKeys.DisconnectAllIdempotent | SS/frontend/src/features/settings/useApiKeys.ts:40 | disconnecting all twice is the same as once |
| ApiKeys.HasConnectedIffConnectedKeys | SS/frontend/src/features/settings/useApiKeys.ts:25-29 | `some(isConnected)` holds exactly when the connected list is non-empty, exactly when some key is connected |
| ApiKeys.ConnectedKeysMembership | SS/frontend/src/features/settings/useApiKeys.ts:28-29 | a key is in the connected list if and only if it is in the list and connected |
| ApiKeys.WithoutUrlMembership | SS/frontend/src/components/SettingsScreen.tsx:201 | a key survives removal if and only if it was in the list with another URL |
| ApiKeys.WithoutUrlAppend | SS/frontend/src/components/SettingsScreen.tsx:201 | removing a URL from two lists joined is removing it from each |
| ApiKeys.MaskUrl | SS/frontend/src/components/HomeScreen.tsx:414 | as written: an empty URL shows nothing; a URL of 1 or 2 characters throws; otherwise the first three characters and a star for each other character |
| ApiKeys.MaskUrlThrowsOnShortUrl | SS/frontend/src/components/SettingsScreen.tsx:550 | the two-character URL `ab` makes the mask throw |
| ApiKeys.MaskUrlClamped | SS/frontend/src/components/HomeScreen.tsx:414 | the corrected mask: same length as the URL, the first up-to-three characters kept, stars after |
| ApiKeys.MaskUrlClampedAgrees | SS/frontend/src/components/HomeScreen.tsx:414 | wherever the written mask does not throw, it and the corrected one give the same text |
| UseApiKeys.ApiKeysHook.constructor | SS/frontend/src/features/settings/useApiKeys.ts:4 | the key list starts empty |
| UseApiKeys.ApiKeysHook.HasConnectedApiKeys | SS/frontend/src/features/settings/useApiKeys.ts:25-26 | `hasConnectedApiKeys` holds exactly when `connectedKeys` is non-empty |
| UseApiKeys.ApiKeysHook.Connected | SS/frontend/src/features/settings/useApiKeys.ts:28-29 | `connectedKeys` holds only connected keys of the current list, never more than it has |
| UseApiKeys.ApiKeysHook.FetchApiKeys | SS/frontend/src/features/settings/useApiKeys.ts:7-23 | an ok response that parses replaces the list; anything else keeps it |
| UseApiKeys.ApiKeysHook.HandleUpdateApiKeys | SS/frontend/src/features/settings/useApiKeys.ts:31-33 | the list becomes the given one |
| UseApiKeys.ApiKeysHook.HandleDisconnectAllApiKeys | SS/frontend/src/features/settings/useApiKeys.ts:36-44 | every key is marked disconnected and afterwards none is connected |
| UseApiKeys.ApiKeysHook.HandleDisconnectApiKey | SS/frontend/src/features/settings/useApiKeys.ts:47-61 | once the request resolves, whatever its status, the keys with that URL are marked disconnected; a rejected request changes nothing |
| UseApiKeys.ApiKeysHook.HandleConnectApiKey | SS/frontend/src/features/settings/useApiKeys.ts:64-83 | only an ok response whose body parses marks the keys with that URL connected |
| ApiConnectionStatus.MaskToken | SS/frontend/src/features/settings/ApiConnectionStatus.tsx:5-8 | no token shows nothing; up to 8 characters show one star each; longer ones show the first 4, an ellipsis and the last 4 |
| ApiConnectionStatus.CountKeys | SS/frontend/src/features/settings/ApiConnectionStatus.tsx:15-17 | the connected and disconnected counts add up to the total, and the connected count is the length of the connected list |
| ApiConnectionStatus.CountKeysExtremes | SS/frontend/src/features/settings/ApiConnectionStatus.tsx:15-17 | the connected count is 0 exactly when no key is connected; the disconnected count is 0 exactly when every key is |
| ApiConnectionStatus.SummaryRows | SS/frontend/src/features/settings/ApiConnectionStatus.tsx:51 | the summary has at most five rows and no more than there are keys, each titled by its key, `Dooray` when the title is missing |
| ApiConnectionStatus.SummaryRowsSpec | SS/frontend/src/features/settings/ApiConnectionStatus.tsx:51-58 | the summary shows min(5, n) rows, each with its key's masked URL and connection state |
| SettingsFeature.MaskToken | SS/frontend/src/features/settings/SettingsScreen.tsx:35-39 | no token shows nothing; up to 8 characters show one star each; longer ones show 9 characters, the token's first 4 and last 4 around one more |
| SettingsFeature.MaskTokensAgree | SS/frontend/src/features/settings/SettingsScreen.tsx:35-39 | the settings screen's mask and the status panel's mask are the same function |
| SettingsFeature.TwoDigits | SS/frontend/src/features/settings/SettingsScreen.tsx:45 | a padded number has at least two characters |
| SettingsFeature.TwoDigitsRoundTrip | SS/frontend/src/features/settings/SettingsScreen.tsx:45 | for 1 to 99, the padded text has exactly two digits and reads back as the number |
| SettingsFeature.FormatDate | SS/frontend/src/features/settings/SettingsScreen.tsx:40-49 | a missing, empty or unparseable date shows `-` |
| SettingsFeature.FormatDateReadsBack | SS/frontend/src/features/settings/SettingsScreen.tsx:45 | for a four-digit year, a formatted date is `yyyy.mm.dd` and its three parts read back as the year, the month counted from 1, and the day |
| SettingsFeature.ProfileOf | SS/frontend/src/features/settings/SettingsScreen.tsx:109-115 | each profile field takes the first present of its `??` alternatives, else the empty string |
| SettingsFeature.SettingsPage.constructor | SS/frontend/src/features/settings/SettingsScreen.tsx:88-98 | no dialog, no key being edited, no profile, not loading |
| SettingsFeature.SettingsPage.LoadProfile | SS/frontend/src/features/settings/SettingsScreen.tsx:102-126 | an ok response that parses gives its profile; a non-ok response, a parse failure or a rejection gives the empty profile; loading always ends |
| SettingsFeature.SettingsPage.HandleAddApiKey | SS/frontend/src/features/settings/SettingsScreen.tsx:142-145 | opens the dialog with no key being edited |
| SettingsFeature.SettingsPage.HandleEditApiKey | SS/frontend/src/features/settings/SettingsScreen.tsx:147-150 | opens the dialog with the key's index, title and URL |
| SettingsFeature.HandleDeleteApiKey | SS/frontend/src/features/settings/SettingsScreen.tsx:128-158 | once the delete resolves, the key list becomes the refetched list when that answer is ok and parses, and stays as it was otherwise |
| SettingsComponent.OrEmpty | SS/frontend/src/components/SettingsScreen.tsx:117-119 | `v \|\| ''` is the value when it is a non-empty string and `''` otherwise |
| SettingsComponent.ProfileOf | SS/frontend/src/components/SettingsScreen.tsx:114-120 | name and email are copied as they are; phone, department and level fall back to `''` when missing or empty |
| SettingsComponent.SettingsView.constructor | SS/frontend/src/components/SettingsScreen.tsx:57-63 | the profile starts with `-` in every field, no keys, no dialog |
| SettingsComponent.SettingsView.FetchUser | SS/frontend/src/components/SettingsScreen.tsx:105-128 | an ok response that parses replaces the profile; anything else keeps it |
| SettingsComponent.SettingsView.FetchUserApis | SS/frontend/src/components/SettingsScreen.tsx:134-149 | the body is parsed before the status is read; only an ok, parseable answer replaces the key list |
| SettingsComponent.SettingsView.HandleAddApiKey | SS/frontend/src/components/SettingsScreen.tsx:174-177 | opens the dialog with no key being edited |
| SettingsComponent.SettingsView.HandleEditApiKey | SS/frontend/src/components/SettingsScreen.tsx:179-182 | opens the dialog with no key being edited: the chosen key is ignored |
| SettingsComponent.SettingsView.HandleSaveApiKey | SS/frontend/src/components/SettingsScreen.tsx:184-186 | the saved key is appended after the existing ones |
| SettingsComponent.SettingsView.HandleDeleteApiKey | SS/frontend/src/components/SettingsScreen.tsx:188-210 | after confirmation and an ok, parseable answer, every key with that URL is gone and no other key is; otherwise nothing changes |
| SettingsComponent.SettingsView.OnConnectApiKey | SS/frontend/src/components/SettingsScreen.tsx:217-240 | only an ok, parseable answer marks the keys with that URL connected |
| SettingsComponent.SettingsView.OnDisconnectApiKey | SS/frontend/src/components/SettingsScreen.tsx:242-257 | any resolved request marks the keys with that URL disconnected; a rejection changes nothing |
| ApiKeyModal.InitialKey | SS/frontend/src/features/settings/ApiKeyModal.tsx:16 | the key field starts as the edited key's URL, or empty when there is no key or it has no URL |
| ApiKeyModal.InitialName | SS/frontend/src/features/settings/ApiKeyModal.tsx:17 | the name field starts as the edited key's title, or empty when there is no key or it has no title |
| ApiKeyModal.SaveBlocked | SS/frontend/src/features/settings/ApiKeyModal.tsx:44 | an empty key or an empty name always blocks the save |
| ApiKeyModal.SaveDisabled | SS/frontend/src/features/settings/ApiKeyModal.tsx:181 | the save button is disabled exactly when a request is loading or a field is empty or only white space |
| ApiKeyModal.SaveBlockedIffBlank | SS/frontend/src/features/settings/ApiKeyModal.tsx:44 | saving is refused exactly when the key or the name is empty or only white space |
| ApiKeyModal.SaveEnabledIff | SS/frontend/src/features/settings/ApiKeyModal.tsx:181 | the save button is enabled exactly when nothing is loading and both fields have a non-space character |
| ApiKeyModal.Dialog.constructor | SS/frontend/src/features/settings/ApiKeyModal.tsx:16-20 | fields start from the edited key (or empty), key hidden, idle, not loading |
| ApiKeyModal.Dialog.OnOpen | SS/frontend/src/features/settings/ApiKeyModal.tsx:22-30 | opening resets the dialog from the edited key; a closed dialog keeps its state |
| ApiKeyModal.Dialog.HandleClose | SS/frontend/src/features/settings/ApiKeyModal.tsx:34-41 | clears both fields, hides the key, idle, not loading |
| ApiKeyModal.Dialog.HandleKeyChange | SS/frontend/src/features/settings/ApiKeyModal.tsx:89-92 | the key becomes the typed value and the status goes back to idle; nothing else changes |
| ApiKeyModal.Dialog.BeginSave | SS/frontend/src/features/settings/ApiKeyModal.tsx:43-55 | a blank field sends nothing; otherwise the key and name are sent and the dialog is loading and validating |
| ApiKeyModal.Dialog.CompleteSave | SS/frontend/src/features/settings/ApiKeyModal.tsx:56-86 | if the add succeeds and the connect request resolves, the status is valid or invalid by the connect status and the parent is told; any failure gives invalid, not loading, parent not told |
| ApiKeyModal.Dialog.AfterDelay | SS/frontend/src/features/settings/ApiKeyModal.tsx:78-81 | the delayed close ends loading and resets the dialog |
| Spring.SingleResult | SS/src/main/java/com/smhrd/ss/repository/UserRepository.java:14-15 | a single-result query gives no row, the one row, or (for more than one) the non-unique-result exception |
| Spring.InsertKeepsIds | SS/src/main/java/com/smhrd/ss/entity/UserApiEntity.java:22-24 | inserting with the next generated identity keeps identities distinct and below the counter |
| Spring.ReplaceKeepsIds | SS/src/main/java/com/smhrd/ss/entity/UserEntity.java:19-21 | saving over the row with the same identity keeps identities distinct and below the counter |
| UserApiService.ApisOf | SS/src/main/java/com/smhrd/ss/repository/UserApiRepository.java:10 | a user's list is never longer than the table, and each row in it is stored with that user's index |
| UserApiService.FindByUserIdxAndApiURL | SS/src/main/java/com/smhrd/ss/service/UserApiService.java:39 | a single row found is stored, belongs to that user and carries that URL |
| UserApiService.ApisOfMembership | SS/src/main/java/com/smhrd/ss/repository/UserApiRepository.java:10 | a row is listed for a user if and only if it is stored with that user's index |
| UserApiService.ApisOfAppend | SS/src/main/java/com/smhrd/ss/service/UserApiService.java:33-35 | after one insert a user's list grows by that row exactly when it is theirs |
| UserApiService.MatchingAppend | SS/src/main/java/com/smhrd/ss/service/UserApiService.java:39 | after one insert the (user, URL) matches grow by that row exactly when it matches |
| UserApiService.WithoutIdRemovesOnly | SS/src/main/java/com/smhrd/ss/service/UserApiService.java:41 | deleting a row by its identity removes it and no other row |
| UserApiService.WithoutIdKeepsIds | SS/src/main/java/com/smhrd/ss/service/UserApiService.java:41 | deleting keeps identities distinct and below the counter |
| UserApiService.UserApiStore.SaveUserApi | SS/src/main/java/com/smhrd/ss/service/UserApiService.java:22-31 | one row with a fresh identity, the owner, title, URL and time is appended; only the owner's list grows; identities stay distinct |
| UserApiService.UserApiStore.GetApisByUser | SS/src/main/java/com/smhrd/ss/service/UserApiService.java:33-35 | exactly the user's rows, in table order |
| UserApiService.UserApiStore.Delete | SS/src/main/java/com/smhrd/ss/service/UserApiService.java:37-45 | no match gives false and no change; one match removes that row only and gives true; several matches throw; another user's row is never removed |
| UserService.ExistsLogin | SS/src/main/java/com/smhrd/ss/repository/UserRepository.java:11 | the exists query holds exactly when the rows with that (email, OAuth) pair are not empty |
| UserService.FindByEmailAndOAuth | SS/src/main/java/com/smhrd/ss/repository/UserRepository.java:15 | a single row found is stored and has that e-mail and that sign-in kind |
| UserService.FindAllByEmailAndPassword | SS/src/main/java/com/smhrd/ss/repository/UserRepository.java:14 | a single row found is stored and has that e-mail and that password |
| UserService.ExistsIffFound | SS/src/main/java/com/smhrd/ss/service/UserService.java:14-23 | the exists query holds exactly when the find query finds a row |
| UserService.PasswordLookupSpec | SS/src/main/java/com/smhrd/ss/repository/UserRepository.java:14 | the (email, password) lookup finds nothing if and only if no row has that e-mail and password, and finds the row itself when exactly one row has them |
| UserService.UniqueLoginsLookup | SS/src/main/java/com/smhrd/ss/service/UserService.java:18-23 | while (email, OAuth) pairs are unique, the find query never throws for a non-unique result |
| UserService.AppendKeepsUnique | SS/src/main/java/com/smhrd/ss/service/UserService.java:25-35 | inserting a pair that is not taken keeps pairs unique |
| UserService.UpdateKeepsUnique | SS/src/main/java/com/smhrd/ss/service/UserService.java:41-43 | replacing a row by one whose pair is not taken keeps pairs unique |
| UserService.OneEmailTwoKinds | SS/src/main/java/com/smhrd/ss/config/SecurityConfig.java:40-47 | one e-mail may hold an e-mail account and a Google account side by side, still unique per pair |
| UserService.IndexOfId | SS/src/main/java/com/smhrd/ss/service/UserService.java:41-43 | the position of the row with an identity, or -1 exactly when none has it |
| UserService.SaveTarget | SS/src/main/java/com/smhrd/ss/service/UserService.java:41-43 | `save` replaces a row exactly when the entity's identity is set and stored |
| UserService.SavedRow | SS/src/main/java/com/smhrd/ss/service/UserService.java:41-43 | the saved row equals the entity except its identity, which is newly issued on insert |
| UserService.AfterSave | SS/src/main/java/com/smhrd/ss/service/UserService.java:41-43 | `save` either replaces the row with the same identity or appends the saved row |
| UserService.SavedIsSoleLogin | SS/src/main/java/com/smhrd/ss/service/UserService.java:25-35 | after saving an entity whose pair was free, it is the only row with that pair |
| UserService.UserStore.Persist | SS/src/main/java/com/smhrd/ss/service/UserService.java:29 | the table becomes the saved state, the counter moves only on insert, and the saved row is stored |
| UserService.UserStore.Check | SS/src/main/java/com/smhrd/ss/service/UserService.java:14-16 | true exactly when some row has the (email, OAuth) pair |
| UserService.UserStore.UserInfo | SS/src/main/java/com/smhrd/ss/service/UserService.java:18-23 | the single-result lookup by pair, never non-unique while pairs are unique |
| UserService.UserStore.Register | SS/src/main/java/com/smhrd/ss/service/UserService.java:25-35 | a taken pair gives `fail` and no change; otherwise `success` with the entity saved as the only row with its pair; uniqueness is kept |
| UserService.UserStore.Login | SS/src/main/java/com/smhrd/ss/service/UserService.java:37-39 | the single-result lookup by (email, password); a found row is stored and has that email and password |
| UserService.UserStore.Save | SS/src/main/java/com/smhrd/ss/service/UserService.java:41-43 | the table becomes the saved state and the saved row is stored |
| UserService.LoginWithoutPasswordFindsGoogleUser | SS/src/main/java/com/smhrd/ss/service/UserService.java:37-39 | as written, a login with the e-mail of a Google user and no password finds that user |
| UserService.LoginLookup | SS/src/main/java/com/smhrd/ss/service/UserService.java:37-39 | the corrected lookup: no row when the e-mail or the password is missing, otherwise the written lookup |
| UserService.LoginLookupNeedsPassword | SS/src/main/java/com/smhrd/ss/service/UserService.java:37-39 | with the corrected lookup, a found user has a stored password equal to the one given |
| UserApiController.BlankTitlePasses | SS/src/main/java/com/smhrd/ss/controller/UserApiController.java:44 | the server accepts a title of white space only, which the dialog's own guard refuses |
| UserApiController.AddApi | SS/src/main/java/com/smhrd/ss/controller/UserApiController.java:31-52 | no user gives 401 and a missing or empty field gives 400, both with no change; otherwise 200 with one row appended for the session user |
| UserApiController.GetUserApis | SS/src/main/java/com/smhrd/ss/controller/UserApiController.java:54-63 | 401 without a user; otherwise 200 with exactly that user's rows |
| UserApiController.DeleteApi | SS/src/main/java/com/smhrd/ss/controller/UserApiController.java:65-77 | no user: 200 asking to sign in, no change; otherwise deleted exactly for one match, and then the table is the old one without exactly that row; not found exactly for none; 500 for several; other users' rows survive |
| UserController.NewUser | SS/src/main/java/com/smhrd/ss/controller/UserController.java:63-67 | the new entity copies name, e-mail and password, has sign-in kind 0 and nothing else |
| UserController.RegisterStatus | SS/src/main/java/com/smhrd/ss/controller/UserController.java:54-78 | as written: 409 exactly when the body's own pair is taken, 200 exactly when neither that pair nor (email, 0) is |
| UserController.DuplicateSignUpIsBadRequest | SS/src/main/java/com/smhrd/ss/controller/UserController.java:56-58 | a sign-up body without OAuth never gets 409, and gets 400 when the e-mail is registered |
| UserController.DuplicateSignUpExample | SS/src/main/java/com/smhrd/ss/controller/UserController.java:56-58 | on a table with one e-mail account, signing up with that e-mail gets 400 |
| UserController.RegisterStatusIntended | SS/src/main/java/com/smhrd/ss/controller/UserController.java:56-61 | the corrected status: 409 exactly when (email, 0) is taken, 200 otherwise |
| UserController.RegisterIntendedMatchesService | SS/src/main/java/com/smhrd/ss/controller/UserController.java:54-78 | the corrected status agrees with what the service does for the saved entity, and with the written one when the body says OAuth 0 |
| UserController.Login | SS/src/main/java/com/smhrd/ss/controller/UserController.java:29-52 | one match: 200, the user in the session, a one-day timeout with remember-me; no match: 401; several: 500; the session changes only on 200 |
| UserController.Register | SS/src/main/java/com/smhrd/ss/controller/UserController.java:54-78 | the status is `RegisterStatus`, the table changes only on 200 (to the saved state), and pairs stay unique |
| UserController.GetCurrentUser | SS/src/main/java/com/smhrd/ss/controller/UserController.java:81-90 | 200 with the session user exactly when there is one, 401 otherwise |
| UserController.Logout | SS/src/main/java/com/smhrd/ss/controller/UserController.java:93-97 | the session is invalidated and holds no user; 200 with the logout message |
| DoorayController.DriveConnect | SS/src/main/java/com/smhrd/ss/controller/DoorayController.java:34-48 | no user: 401 with no call; a non-null drive list: 200 and exactly one connect call; `null`: 401 and no connect call |
| DoorayController.DriveDisconnect | SS/src/main/java/com/smhrd/ss/controller/DoorayController.java:50-56 | without a user, 500 before any call; otherwise the service's answer, from one disconnect call |
| DoorayController.ApiLoading | SS/src/main/java/com/smhrd/ss/controller/DoorayController.java:58-68 | without a user, 500; otherwise one query for connected keys, and 200 with the list or 401 for `null` |
| DoorayController.Collected | SS/src/main/java/com/smhrd/ss/controller/DoorayController.java:79-99 | at most one entry per key, and every entry is the entry of some key whose fetch returned a list |
| DoorayController.CollectedIsLoadedKeys | SS/src/main/java/com/smhrd/ss/controller/DoorayController.java:81-97 | the collected entries are the keys whose fetch returned a list, in order, each turned into its entry |
| DoorayController.CollectedSpec | SS/src/main/java/com/smhrd/ss/controller/DoorayController.java:81-97 | at most one entry per key; an entry is there if and only if some key loaded and it copies that key and its drives; a failing key does not affect the others |
| DoorayController.DriveLoading | SS/src/main/java/com/smhrd/ss/controller/DoorayController.java:70-100 | without a user, 500 before any call; otherwise one query for connected keys, then 401 for none (`null` or empty), or one drive fetch per key in order, failures included, and 200 with the collected entries |

## Left out

- Network, JSON and timers are outside the model.
  - Each `fetch` is a `Response` parameter.
  - The drive client's answer is a parameter.
  - The service methods `connectApi`, `disConnectApi` and `getApisIsConnected` are declared in no shown service class. Their calls are recorded as values, and their results are parameters.
  - `setTimeout` is modelled as a separate step (`AfterDelay`).
- Date parsing: `new Date(iso)` is a parameter of `FormatDate` (the parsed parts, or none when invalid).
- Rendering (JSX), alerts, `confirm` (a parameter) and console logging.
- `DoorayService`, the drive client, is not part of this model.
- `OAuth2Controller` is not part of this model. Neither is the Google sign-in flow beyond the rows it stores.
- The `/coonectApi` endpoint is not modelled. It calls the connection service, which is not part of this model.
- `handleLogout`, `handleSaveProfile` and the tab switching of the settings screens are not modelled. They only change view state.
- `findByUserIdxAndApiURL` is called by the key service but is not declared in the repository shown. It is modelled with the meaning Spring gives the name: a single-result query by equality.
- JPA `save` of an entity whose identity is set but stored nowhere is modelled as Hibernate before 6.6 merges it: the entity is inserted with a fresh identity. From Hibernate 6.6 on, that save throws `OptimisticLockException`, which the controllers would answer with 500. No build file fixes the version, and the model does not cover the throwing branch.
- UserService.SaveTarget, UserService.AfterSave, UserService.UserStore.Persist and UserService.UserStore.Save: for an identity that is set but not stored, they promise the pre-6.6 insert, not the 6.6 exception.
- UserController.Login: a `rememberMe` that is present but not a Boolean throws `ClassCastException` in the source. The model's request field is already Boolean, so this is not modelled.
- Strings are sequences of characters (Unicode scalar values), while JavaScript's `length`, `slice`, `padStart` and `repeat` count UTF-16 code units. The model agrees with the front end only on text in the Basic Multilingual Plane. For example, the URL `a😀` has length 3 in JavaScript, so the mask does not throw there, but it has length 2 here. The members this affects are listed below.
- ApiKeys.MaskUrl: the `length - 3` star count and the three-character prefix count characters, not UTF-16 code units.
- ApiConnectionStatus.MaskToken: the `<= 8` threshold, `slice(0, 4)` and `slice(-4)` count characters, not UTF-16 code units.
- SettingsFeature.MaskToken: the same threshold and slices count characters, not UTF-16 code units.
- Js.Slice, Js.Repeat, Js.PadStart and Js.Trim: they index characters, not UTF-16 code units.
- Concurrency: interleaved responses and React state batching are outside the model. Each handler is one atomic update.
- SettingsFeature.FormatDate: only the "-" cases are stated on the function. The digits of a valid date are stated by `FormatDateReadsBack`, for four-digit years only.
- Where the written code and the system's design description differ, the model follows the code:
  - unrecognised recency labels sort first, not last;
  - the catalogue is not deduplicated by id;
  - the file walk does not exclude `root` and `trash` drives and folders; only the drive tab hides them, at the drive and top-level folder level, and a sub-folder of either name is still shown;
  - no depth cap on the walk;
  - connection state is a flag, with no connecting or failed state;
  - key registration does not refuse a duplicate (title, URL) pair.

## Findings

| source | as written | input that shows it | evidently intended | confidence | as-written member | corrected member |
|---|---|---|---|---|---|---|
| SS/frontend/src/components/HomeScreen.tsx:414 (also SS/frontend/src/components/SettingsScreen.tsx:550) | `'*'.repeat(url.length - 3)` for any non-empty URL | a key URL `ab`: the count is -1 and `repeat` throws `RangeError`, so the whole list fails to render | show the first characters and star the rest; a short URL shows as it is | high, not executed | ApiKeys.MaskUrl with ApiKeys.MaskUrlThrowsOnShortUrl | ApiKeys.MaskUrlClamped with ApiKeys.MaskUrlClampedAgrees |
| SS/src/main/java/com/smhrd/ss/controller/UserController.java:56-58 | the duplicate check uses the request body's `OAuth`, which a sign-up form never sends (`null`) | table holds (a@b.c, OAuth 0); sign up again with a@b.c: `check` looks for OAuth `NULL`, finds nothing, and the service refuses with 400 | answer 409 "e-mail taken", by checking the pair that is stored, (email, 0) | high, not executed | UserController.RegisterStatus with UserController.DuplicateSignUpExample | UserController.RegisterStatusIntended with UserController.RegisterIntendedMatchesService |
| SS/src/main/java/com/smhrd/ss/service/UserService.java:37-39 | a login body without `password` is looked up with a `null` password, which Spring's derived query turns into `password IS NULL` | a Google account (user@example.com, OAuth 1, no password, stored by SecurityConfig.java:40-47); a login with that e-mail and no password signs in as that user | a login without a password finds no one | medium, not executed | UserService.FindAllByEmailAndPassword with UserService.LoginWithoutPasswordFindsGoogleUser | UserService.LoginLookup with UserService.LoginLookupNeedsPassword |
