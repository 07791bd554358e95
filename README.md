# IT asset inventory: access rules, mock authentication and view router

A Dafny model of the logic at the centre of a single-page IT asset inventory.
The app is a React UI, and the model covers three parts of it:

- **Access rules and the state holder** (`App.tsx`).
  - `getFilteredAssets` decides which assets a role may see. `hasPermission` decides which views a role may open.
  - The state handlers become the methods of a class `App`. Its fields are the React state: the asset and
    user collections, the active view, the asset or user being edited, the authentication state and the
    login error.
  - The handlers cover adding, editing and deleting assets and users, view changes, edit selection,
    cancel, login, logout, profile update, and restoring the session at start-up.
- **Mock directory, authenticator and session** (`data/mockAuth.ts`).
  - `Directory` is the `mockAuthUsers` table, from login email to identity and password. `Login` and
    `UpdateProfile` rewrite it in place.
  - `SessionStore` is browser-local storage under the key `auth-user`.
  - `Logout` removes that key. `GetDemoAccounts` is the demo-account list shown on the login screen.
- **Navigation rules** (`components/Navigation.tsx`). These are the menu offered to each role, the role
  badge style, the shown role name and the avatar initials.

Time readings (`Date.now()`, `new Date().toISOString()`), the generated id, the answer of the `confirm()`
dialog and character upper-casing are parameters. Roles and views are strings. This is because
`hasPermission` accepts any view string, and the navigation helpers accept any role string and have a
default branch.

What is proved, in short:
- The menu never offers a view that the router refuses.
- A `user`-role account sees exactly its assigned assets, in their original order.
- Deletion keeps exactly the other elements, in order. Edits touch only the selected id and keep `id` and
  `createdAt`.
- A failed login changes nothing. A successful login only refreshes `lastLogin`.
- A profile update never changes the id or the record's email key. Present fields win and absent fields are
  kept.
- A saved session reads back as saved. A cleared session reads back as nothing.
- Login and profile update keep identity ids unique in the directory.

The demo-account caption for the `user` role reads "User (Add/Edit Assets)" (`data/mockAuth.ts:194`).
`hasPermission` denies both `add` and `edit-asset` to that role (`App.tsx:64,70-71`), and the menu does not
offer `add` to it. `MockAuth.DemoUserCaptionContradictsPermissions` states this disagreement. The source
does not say whether the caption or the permission table is meant, so the model keeps both as written.

Behaviour worth knowing:
- The add, edit and delete handlers check no permission themselves. The program reaches them only through
  callbacks that `renderContent` wires up for permitted roles: the asset callbacks only when the user is an
  administrator or a manager, and the user callbacks only inside the permitted `users` view.
- `mockLogout` only removes the session key. It does not touch the directory.
- A login sets `lastLogin` to the current time reading. Nothing makes it grow from one login to the next.
- The shown role name does not identify the role: a raw role string such as "Administrator" is displayed
  exactly like `admin`.

## Model

| member | source | states |
|---|---|---|
| `Access.HasPermission` | App.tsx:62-76 | a view is refused exactly when it is one of users, add-user, edit-user, reports, add, edit-asset and the role is neither admin nor manager; every other view string is permitted |
| `Access.FilteredAssets` | App.tsx:48-59 | admin, manager and viewer get the collection unchanged; any other role gets exactly the assets assigned to its employee id |
| `Access.FilteredAssetsInOrder` | App.tsx:57-58 | for the filtered roles the result is the subsequence of the collection at exactly the positions assigned to the user, in original order |
| `Seqs.Filter` | App.tsx:155 | the filter result is no longer than the input and holds exactly the input elements that satisfy the predicate |
| `Seqs.FilterSelects` | App.tsx:185 | the filter result is the input taken at strictly increasing positions, and those positions are exactly the satisfying ones (relative order kept) |
| `Seqs.FilterKeepsAll` | App.tsx:153-157 | when every element satisfies the predicate (no element has the deleted id) the filter returns the input unchanged |
| `Seqs.MapWhere` | App.tsx:143-147 | the conditional map keeps the length; selected elements are replaced by their image, all others stay in place |
| `AssetTypes.NewAsset` | App.tsx:131-136 | the new asset carries the form fields, the given id, and createdAt = updatedAt = now |
| `AssetTypes.EditedAsset` | App.tsx:145 | the edited asset carries the form fields, keeps its id and createdAt, and has updatedAt = now |
| `UserTypes.NewUser` | App.tsx:160-166 | the new user carries the form fields, the given id, an empty lastLogin, and createdAt = updatedAt = now |
| `UserTypes.EditedUser` | App.tsx:175 | the edited user carries the form fields, keeps id, lastLogin and createdAt, and has updatedAt = now |
| `AppState.App.constructor` | App.tsx:19-30 | initial state: the seed collections, the dashboard view, no selection, nobody signed in, no error |
| `AppState.App.RestoreSession` | App.tsx:34-45 | a stored session signs its user in; without one the authentication state is unchanged |
| `AppState.App.HandleLogin` | App.tsx:79-95 | accepted credentials: the refreshed identity is saved under the session key (no other key touched) and signed in, error cleared, directory updated; rejected: the message "Invalid email or password" is shown and session, directory and signed-in user are unchanged |
| `AppState.App.HandleLogout` | App.tsx:97-112 | session key removed, nobody signed in, dashboard view, both selections cleared |
| `AppState.App.HandleUpdateProfile` | App.tsx:114-128 | no signed-in user: nothing changes; otherwise failure exactly when no record has the user's id (nothing changes), success saves the merged identity (same id) under the session key, touching no other key, and signs it in |
| `AppState.App.HandleAddAsset` | App.tsx:130-139 | exactly one asset appended at the end with the given id and createdAt = updatedAt = now; the view becomes assets |
| `AppState.App.HandleEditAsset` | App.tsx:141-151 | with a selection: length kept, only assets with the selected id change (to the edited form), selection cleared, view assets; without one: nothing changes |
| `AppState.App.HandleDeleteAsset` | App.tsx:153-157 | confirmed: no asset with the id remains and all others remain in order; unconfirmed or id absent: collection unchanged |
| `AppState.App.HandleAddUser` | App.tsx:159-169 | exactly one user appended with the given id, empty lastLogin and createdAt = updatedAt = now; the view becomes users |
| `AppState.App.HandleEditUser` | App.tsx:171-181 | with a selection: length kept, only users with the selected id change (lastLogin kept), selection cleared, view users; without one: nothing changes |
| `AppState.App.HandleDeleteUser` | App.tsx:183-187 | confirmed: no user with the id remains and all others remain in order; unconfirmed or id absent: collection unchanged |
| `AppState.App.HandleViewChange` | App.tsx:189-200 | no user or refused view: nothing changes; otherwise the view switches and both selections are cleared unless the view is edit-asset or edit-user |
| `AppState.App.HandleEditAssetClick` | App.tsx:202-209 | only a user permitted edit-asset selects the asset and opens edit-asset; otherwise nothing changes |
| `AppState.App.HandleEditUserClick` | App.tsx:211-218 | only a user permitted edit-user selects the user and opens edit-user; otherwise nothing changes |
| `AppState.App.HandleCancel` | App.tsx:220-225 | both selections cleared; the view becomes assets if an asset was being edited, else users |
| `MockAuth.ApplyProfileUpdate` | data/mockAuth.ts:146-150 | the merged identity has id = userId whatever the update holds; each present property takes the new value, each absent one keeps the stored value |
| `MockAuth.ProfileUpdateIdempotent` | data/mockAuth.ts:146-150 | applying the same update twice equals applying it once |
| `MockAuth.Directory.constructor` | data/mockAuth.ts:4-100 | the directory starts as a seed table with unique identity ids |
| `MockAuth.Directory.FindById` | data/mockAuth.ts:137 | returns an email whose record has the id, and returns none exactly when no record has it |
| `MockAuth.Directory.Login` | data/mockAuth.ts:103-122 | fails exactly when the email is unknown or the password differs, leaving the table unchanged; on success returns the stored identity with only lastLogin = now and writes it back under the same email with the same password |
| `MockAuth.Directory.UpdateProfile` | data/mockAuth.ts:132-155 | fails with "User not found" exactly when no record has the id, table unchanged; on success returns the merged identity with the same id, and only that record changes, under the same email and password |
| `MockAuth.SameIdReplacementKeepsIdsUnique` | data/mockAuth.ts:119 | replacing a record's identity by one with the same id keeps identity ids unique |
| `MockAuth.SessionStore.Get` | data/mockAuth.ts:162-172 | yields the stored identity exactly when the key holds a parsable identity, and null otherwise (missing or malformed) |
| `MockAuth.SessionStore.Save` | data/mockAuth.ts:158-160 | writes only the session key; a following Get yields the saved identity |
| `MockAuth.SessionStore.Clear` | data/mockAuth.ts:174-176 | removes only the session key; a following Get yields null |
| `MockAuth.Logout` | data/mockAuth.ts:124-130 | removes only the session key; a following Get yields null |
| `MockAuth.SessionStore.constructor` | data/mockAuth.ts:162-164 | storage starts with the given contents, standing for whatever the browser kept from earlier visits |
| `MockAuth.GetDemoAccounts` | data/mockAuth.ts:179-202 | the four demo accounts (admin, manager, user, viewer) use four different login emails |
| `MockAuth.DemoUserCaptionContradictsPermissions` | data/mockAuth.ts:191-195 | the user-role demo account is captioned "User (Add/Edit Assets)" while every user-role account is refused add and edit-asset |
| `Navigation.AvailableViews` | components/Navigation.tsx:35-62 | admin and manager get dashboard, assets, users, reports, add; viewer and every other role get dashboard, assets; the asset entry is captioned Asset List, Assets (viewer) or My Assets (other roles) |
| `Navigation.MenuOffersOnlyPermittedViews` | components/Navigation.tsx:35-62 | every view offered to a user's role passes hasPermission for that user |
| `Navigation.Initials` | components/Navigation.tsx:66-68 | at most two characters: the upper-cased first character of each non-empty name, first name first |
| `Navigation.RoleBadgeVariant` | components/Navigation.tsx:70-78 | default exactly for admin, secondary exactly for manager, outline for every other role |
| `Navigation.BadgeMarksPrivilegedRoles` | components/Navigation.tsx:70-78 | a non-outline badge marks exactly the roles with the five-entry menu and exactly the roles permitted every restricted view |
| `Navigation.RoleDisplayName` | components/Navigation.tsx:80-88 | admin, manager, user, viewer are shown as Administrator, Manager, User, Viewer; any other role string is shown unchanged |
| `Navigation.ShownNameCollides` | components/Navigation.tsx:80-88 | a role string spelled like a known role's shown name (Administrator, Manager, User, Viewer) is displayed exactly like a different, known role |

## Left out

- The loading flag `isLoading`, the simulated latency (`setTimeout`) of the three mock calls, and `useState`/`useEffect` scheduling. Setters are field assignments applied in program order.
- Rendering: `renderContent` and its "Access Denied" screens, the loading and login screens, `components/Login.tsx` with `handleDemoLogin`, the Navigation markup, and the logging with `console.warn`/`console.error`.
- `Date.now()` and `new Date().toISOString()` are parameters. The add handlers read the clock twice (once for `createdAt`, once for `updatedAt`), and the edit handlers read it once per matching element. The model takes one reading `now` per call, so a tick between two reads is not modelled.
- AppState.App.HandleAddAsset, AppState.App.HandleEditAsset, AppState.App.HandleDeleteAsset, AppState.App.HandleAddUser, AppState.App.HandleEditUser and AppState.App.HandleDeleteUser: any caller can run them, even with nobody signed in. The render-time gating that wires them only for permitted roles is not modelled.
- `localStorage`, `JSON.stringify` and `JSON.parse` are abstracted as a map from key to either a serialized identity or unparsable text. Stored text that is valid JSON but not an identity is not modelled.
- MockAuth.ProfileUpdate: a property explicitly set to `undefined` (which the spread would copy) is not modelled. A property is either absent or carries a value.
- MockAuth.Directory.FindById: it returns some matching record, where `find` returns the first in insertion order. The two agree under the invariant `Valid()` (identity ids unique), which every directory operation keeps.
- Navigation.Initials: upper-casing is a character-to-character parameter. Case mappings that change the length (such as `ß` to `SS`) are not modelled. A `char` is a Unicode scalar value, while `charAt(0)` takes one UTF-16 code unit: for a name starting outside the Basic Multilingual Plane the source yields a lone surrogate, and the model yields the upper-cased whole character.
- The seed contents of `mockAuthUsers` and of the asset and user lists. The constructors take the seed as a parameter. `data/mockAssets.ts` is not part of this model.
- `purchasePrice` and `currentValue` are `real` and are only carried, never computed with, so floating point is not modelled.
- The TypeScript role union is not enforced. A role is any string, which the navigation default branches need.
- `types/report.ts` is not part of this model: its declarations are not used by the modelled logic.
