# calchart back end, modelled in Dafny

This project models the server side of calchart, a web application for designing marching-band
shows. It is a Django project. The model covers:

- **The wiki and manual help pages.** The tree of `HelpPage`s, walking a `/`-separated slug down
  that tree, and the older manual. The manual's view classes are registered in `ALL_PAGES`, have
  their children converted from slugs to classes, and get a `PARENTS` table built by a
  breadth-first walk.
- **The two `User` models.** They generate unique usernames, set token expiries and answer
  validity and committee questions.
- **The `Show` model.** It generates a unique slug on `save` and copies fields in `save_data`.
- **Two data migrations.** Migration 0012 renames data files. The `UpdateShowVersion` operation
  upgrades show data to a target version; migration 0013 is one use of it.
- **The POST actions of both apps.** Listing a home-page tab, fetching, creating and publishing a
  show, with their permission checks.
- **`collapse`.**

The database is a value: the show table is a `seq<ShowRecord>` in primary-key order. Actions take
a table and return the new one. The things the code asks the world become parameters:

- the current time (`now`, in seconds), and the current year;
- the slugs or usernames already in use (`taken`);
- `slugify`;
- the answer of the Members Only committee endpoint (`apiAnswer`, or `isStunt` for the STUNT
  committee).

Where the source mutates an object in place, the model has a class with `modifies` clauses:
- `WikiPages.PageTree` holds the help pages and their `parent` links;
- `WikiViews.HelpView` holds the page a request reached;
- `ManualViews.ManualSite` holds the manual's module-level tables;
- `BaseUsers.User` and `CalchartUsers.User` are the user objects;
- `Shows.Show` is a model instance.

Each file is one module:
- `text.dfy`: the Python string operations used;
- `search.dfy`: a counting lemma that bounds the candidate-name loops;
- `show_data.dfy`: JSON values;
- `shows.dfy`: the `Show` model;
- `show_queries.dfy`: ORM lookups on the table;
- `show_access.dfy`: `retrieve_show` and both `get_show`s;
- `calchart_actions.dfy` and `base_home.dfy`: the actions;
- `base_users.dfy` and `calchart_users.dfy`: the `User` models;
- `viewer_file_migration.dfy`: migration 0012;
- `show_versions.dfy`: `UpdateShowVersion`;
- `base_utils.dfy`: `collapse`;
- `wiki_pages.dfy`, `wiki_views.dfy` and `manual_views.dfy`: the help pages.

calchart/calchart/models.py repeats the `Show` model of calchart/base/models.py line for line:
compare lines 78-112 with 130-164. `Shows` models both.

## Model

| member | source | states |
|---|---|---|
| Text.SlugToName | calchart/wiki/pages.py:21 | the default page name has the slug's length and no `-`, and is the title-casing of the slug with `-` turned into spaces |
| Text.TitleSpec | calchart/manual/views.py:48 | `str.title()` keeps every non-letter, upper-cases a letter that starts a word and lower-cases a letter that follows a letter |
| Text.TitleIdempotent | calchart/wiki/pages.py:21 | title-casing a title-cased name changes nothing |
| Text.Replace | calchart/wiki/pages.py:21 | a one-character `replace` keeps the length |
| Text.Remove | calchart/manual/views.py:77 | removing spaces leaves no space, keeps every other character that occurs, never lengthens, and is the identity on a string without spaces |
| Text.RemoveMultiset | calchart/manual/views.py:77 | every character other than the removed one is kept as often as it occurs: the result's multiset is the string's with the removed character's count set to zero |
| Text.RemoveAppend | calchart/manual/views.py:77 | removal works piece by piece, so the kept characters stay in their order |
| Text.RemoveOne | calchart/manual/views.py:77 | a one-character string is dropped exactly when it is the removed character, which with `RemoveAppend` fixes the result on every string |
| Text.Split | calchart/wiki/views.py:39 | `split('/')` gives at least one piece and no piece contains `/` |
| Text.JoinSplit | calchart/manual/views.py:60-65 | re-joining the pieces of a split by `/` gives the string back |
| Text.SplitJoin | calchart/wiki/views.py:39 | splitting a join of slash-free pieces gives the pieces back |
| Text.SplitTailShorter | calchart/manual/views.py:65 | the slug passed down to a child's dispatch is strictly shorter than the one received |
| Text.NatToString | calchart/base/models.py:161 | the rendering of a number is a non-empty digit string, with two or more digits from 10 on |
| Text.NatToStringInjective | calchart/base/models.py:161 | distinct counters give distinct suffixes |
| Text.IntToString | calchart/utils/db.py:46 | the rendering of an int is non-empty |
| Text.IntToStringInjective | calchart/utils/db.py:46 | distinct versions are rendered differently |
| WikiPages.Name | calchart/wiki/pages.py:17-22 | without an explicit name, the name is the title-cased slug with `-` replaced by a space |
| WikiPages.Chain | calchart/wiki/pages.py:28-37 | the ancestor chain ends at the page, starts at a page without a parent, each element is the parent of the next, and a page without a parent gives `[page]` |
| WikiPages.FirstWithSlug | calchart/wiki/pages.py:43-46 | the position found is the first whose slug matches; None means no child matches |
| WikiPages.FirstChild | calchart/wiki/pages.py:39-46 | `get_child` returns a child of the page with that slug, or None when no child has it |
| WikiPages.SlugsExceptHome | calchart/wiki/pages.py:52-56 | the URL slugs leave every `home` out and never add one |
| WikiPages.ChainStartsAtRoot | calchart/wiki/pages.py:32-37 | in a tree rooted at `home`, every ancestor chain starts at the root and contains the root nowhere else |
| WikiPages.SlugsExceptHomeOfNonHome | calchart/wiki/pages.py:52-56 | leaving out `home` drops only pages whose slug is `home` |
| WikiPages.UrlSlugBelowRoot | calchart/wiki/pages.py:52-56 | a page's URL slug is the join of the slugs below the root on its chain, and the root's is `''` |
| WikiPages.PageTree.NewPage | calchart/wiki/pages.py:13-26 | a string second argument is the name and the rest are children; otherwise the name is derived and all further arguments are children; the new page has no parent; each child's parent becomes the new page; no other link changes; the tree stays well formed |
| WikiPages.PageTree.GetParents | calchart/wiki/pages.py:28-37 | the parent walk, reversed, is exactly the ancestor chain `[root, ..., page]` |
| WikiPages.PageTree.GetChild | calchart/wiki/pages.py:39-46 | the loop returns the first child with the slug, or None when there is none |
| WikiPages.PageTree.GetUrl | calchart/wiki/pages.py:48-56 | the slug given to `reverse` is the chain's slugs joined by `/` with `home` omitted, `''` for the root |
| WikiPages.Reversed | calchart/wiki/pages.py:37 | `reversed` puts element `k` at position `n - 1 - k` |
| WikiPages.Adopt | calchart/wiki/pages.py:25-26 | adoption keeps the number of links |
| WikiPages.AdoptSpec | calchart/wiki/pages.py:24-26 | after the loop, exactly the listed children link to the new page |
| WikiPages.ChainStep | calchart/wiki/pages.py:34-36 | one more link followed adds one element in front of the chain |
| WikiPages.AdoptionKeepsValid | calchart/wiki/pages.py:24-26 | a new page that adopts earlier pages keeps every parent link pointing to a page that lists the child |
| WikiPages.FirstWithSlugIs | calchart/wiki/pages.py:43-45 | a scan stopping at the first match returns it |
| WikiPages.FirstWithSlugNone | calchart/wiki/pages.py:46 | a scan without a match returns None |
| WikiPages.FirstChildOfChild | calchart/wiki/pages.py:39-46 | with distinct sibling slugs, each child is found by its own slug |
| WikiPages.RootAdoption | calchart/wiki/pages.py:59 | `home` adopting its four arguments gives the final parent links of `ROOT_PAGE` |
| WikiPages.AddPage | calchart/wiki/pages.py:20-26 | `HelpPage(slug, *kids)` appends a page with a derived name whose children are adopted |
| WikiPages.AddNamedPage | calchart/wiki/pages.py:17-19 | `HelpPage(slug, name)` appends a named page without children or parent |
| WikiPages.BuildEditingDots | calchart/wiki/pages.py:62-66 | the three dot pages are built, then `editing-dots` adopts them |
| WikiPages.BuildContinuitiesFirst | calchart/wiki/pages.py:68-72 | the first five continuity pages, in order, with their names |
| WikiPages.BuildContinuitiesLast | calchart/wiki/pages.py:73-78 | the last six continuity pages, in order, with their names |
| WikiPages.BuildEditingContinuities | calchart/wiki/pages.py:67-79 | the eleven continuity pages are built, then `editing-continuities` adopts them |
| WikiPages.BuildRootPage | calchart/wiki/pages.py:59-80 | evaluating `ROOT_PAGE` gives exactly the nineteen pages and parent links of `RootForest`, rooted at `home` |
| WikiPages.RootParentAt | calchart/wiki/pages.py:59-80 | the parent link of every page of `ROOT_PAGE` |
| WikiPages.RootChildrenAt | calchart/wiki/pages.py:59-80 | the children of every page of `ROOT_PAGE` |
| WikiPages.RootForestTree | calchart/wiki/pages.py:59-80 | `ROOT_PAGE` is well formed and every child links back to its parent |
| WikiPages.RootForestShape | calchart/wiki/pages.py:59-80 | `home` is the only page without a parent and the only one with the slug `home` |
| WikiPages.RootSlashFree | calchart/wiki/pages.py:59-80 | no slug of `ROOT_PAGE` is empty or contains `/` |
| WikiPages.RootSlugAt | calchart/wiki/pages.py:59-80 | the slug of each page, in construction order |
| WikiPages.RootSlugsPlain | calchart/wiki/pages.py:59-80 | each slug is non-empty and slash-free |
| WikiPages.RootDistinctSiblings | calchart/wiki/pages.py:59-80 | sibling slugs in `ROOT_PAGE` are pairwise distinct |
| WikiPages.RootSlugsDistinct | calchart/wiki/pages.py:59-80 | all nineteen slugs differ |
| WikiViews.Resolve | calchart/wiki/views.py:38-44 | no segment resolves to the starting page; every resolved page exists |
| WikiViews.HelpView.Dispatch | calchart/wiki/views.py:29-46 | without a slug the page is `ROOT_PAGE`; otherwise the segments are followed in order and an unmatched segment is a 404 |
| WikiViews.HelpView.GetContextData | calchart/wiki/views.py:48-63 | the template is `wiki/<slug>.md`, the title is the page's name and the navigation is its ancestor chain |
| WikiViews.ResolveSnoc | calchart/wiki/views.py:39-42 | one more segment selects the child of the page reached so far |
| WikiViews.ResolveNotFound | calchart/wiki/views.py:42-44 | a segment that matches no child makes the whole slug not found |
| WikiViews.ResolveFailsAt | calchart/wiki/views.py:42-44 | a slug that is not found has a first segment matching no child |
| WikiViews.ResolveDepth | calchart/wiki/views.py:39-42 | a resolved page lies one level down per segment, along pages whose slugs are the segments |
| WikiViews.ChildLinksBack | calchart/wiki/pages.py:25-26 | a listed child's parent is the page that lists it |
| WikiViews.FoundBySlug | calchart/wiki/pages.py:39-46 | a page is found under its parent by its own slug |
| WikiViews.ResolveDown | calchart/wiki/views.py:39-42 | following the slugs of a parent-linked path arrives at the end of the path |
| WikiViews.UrlRoundTrip | calchart/wiki/views.py:39-44 | the URL slug of any page but the root resolves back to that page |
| WikiViews.EmptySlugNotFound | calchart/wiki/views.py:39-44 | the slug `''` is one empty segment and is not found when no slug is empty |
| WikiViews.RootUrlRoundTrip | calchart/wiki/views.py:39-44 | every page of `ROOT_PAGE` other than `home` is reached from its own URL slug |
| WikiViews.RootEmptySlugNotFound | calchart/wiki/views.py:39-44 | requesting `''` from `ROOT_PAGE` is a 404 |
| WikiViews.RootResolveDepth | calchart/wiki/views.py:39-42 | a page resolved in `ROOT_PAGE` has a chain one longer than the number of segments |
| ManualViews.GetName | calchart/manual/views.py:43-50 | an explicit name wins; otherwise the title-cased slug with `-` as space; neither is the exception `slug cannot be None` |
| ManualViews.GetNameStable | calchart/manual/views.py:128 | storing the name `get_name` gave does not change what it gives |
| ManualViews.FirstWithSlug | calchart/manual/views.py:38-41 | the first child class whose slug matches, or None when none does |
| ManualViews.GetChild | calchart/manual/views.py:33-41 | the first child class with the slug, or None; children that are still slugs fail on the first one |
| ManualViews.Route | calchart/manual/views.py:52-67 | the empty slug is handled where it arrives; every routed class exists |
| ManualViews.RouteNotFound | calchart/manual/views.py:60-64 | a first segment that names no child is a 404 |
| ManualViews.GetChildFinds | calchart/manual/views.py:33-41 | with distinct sibling slugs, a child is found by its slug |
| ManualViews.RouteDown | calchart/manual/views.py:58-65 | dispatching the joined slugs of a child path reaches its last class |
| ManualViews.UrlSlugs | calchart/manual/views.py:92-95 | the slugs of a `PARENTS` list without `home`; a class without a slug fails the join |
| ManualViews.GetUrl | calchart/manual/views.py:88-96 | the slug is the joined `PARENTS` slugs without `home`; a class without an entry is a KeyError |
| ManualViews.UrlSlugsPlain | calchart/manual/views.py:92-95 | on classes that are not `home`, the list has one slug per class |
| ManualViews.UrlRoundTrip | calchart/manual/views.py:58-95 | dispatching `get_url`'s slug from the root reaches the class it was made for |
| ManualViews.GetContextData | calchart/manual/views.py:74-86 | the template is the name with all spaces removed, the title is the name, and the navigation is the `PARENTS` entry |
| ManualViews.RegistrationsSpec | calchart/manual/views.py:125-131 | every nameable class is registered, under the last nameable class with its slug |
| ManualViews.RenamedAll | calchart/manual/views.py:126-131 | the loop changes no slug and no children |
| ManualViews.RenameStep | calchart/manual/views.py:126-131 | one global: a nameable class gets its name stored and its slug entered; anything else is skipped |
| ManualViews.RenamedName | calchart/manual/views.py:128 | the loop does not change any class's `get_name` |
| ManualViews.RenameOne | calchart/manual/views.py:128 | one global renames at most that class |
| ManualViews.RegisteredIndexed | calchart/manual/views.py:125-131 | every `ALL_PAGES` entry is a named class carrying that slug |
| ManualViews.ConvertSpec | calchart/manual/views.py:135-138 | the conversion succeeds exactly when every child slug is registered, mapping each to its class; otherwise the KeyError names the first missing slug |
| ManualViews.ConvertStep | calchart/manual/views.py:134-138 | converting one registered class extends the converted set by its slug |
| ManualViews.ManualSite.RegisterPages | calchart/manual/views.py:124-131 | the `ALL_PAGES` loop stores names and registers exactly the nameable classes |
| ManualViews.ManualSite.ConvertChildren | calchart/manual/views.py:133-138 | every registered class's children become classes, or a KeyError for an unregistered child slug |
| ManualViews.ManualSite.BuildParents | calchart/manual/views.py:140-150 | `PARENTS` has an entry for the root; every visited class's entry is a child path from the root ending at it; every child of a visited class is visited |
| ManualViews.Walk | calchart/manual/views.py:141-150 | the worklist loop terminates; each entry runs from the root to the class through children; every entry belongs to a visited class |
| ManualViews.ConvertAll | calchart/manual/views.py:134-138 | the loop over `ALL_PAGES` converts every class or stops at a KeyError; slugs and names are kept |
| ManualViews.ConvertFails | calchart/manual/views.py:136 | an unregistered child slug ends the conversion with its KeyError |
| ManualViews.ConvertDone | calchart/manual/views.py:134-138 | once every class is converted, the conversion has succeeded |
| ManualViews.PushChildren | calchart/manual/views.py:148-150 | each child gets its parent's entry with the child appended and joins the work list |
| ManualViews.PushChild | calchart/manual/views.py:149-150 | one child: its entry is the parent's path plus the child, and it goes to the end of the work list |
| ManualViews.WalkStart | calchart/manual/views.py:141-144 | `PARENTS` starts as `{home: [RootHelp]}` and the work list as `[RootHelp]` |
| ManualViews.WalkPop | calchart/manual/views.py:146 | `pop(0)` takes a class that was not popped before |
| ManualViews.FreshKids | calchart/manual/views.py:148 | the children of the popped class have not been visited |
| ManualViews.WorkPush | calchart/manual/views.py:150 | appending an unvisited child keeps the work list free of repeats |
| ManualViews.EntriesPush | calchart/manual/views.py:149 | the new entry is a child path from the root; no other entry changes |
| Search.ImageBound | calchart/base/models.py:26-27 | injective candidates that are all taken number at most the taken names |
| Shows.Slugs | calchart/base/models.py:158 | every row's slug counts as taken |
| Shows.GetData | calchart/base/models.py:130-132 | the stored data, or a ValueError for an empty file field |
| Shows.SlugCandidatesDistinct | calchart/base/models.py:160-161 | `slug`, `slug-1`, `slug-2`, ... are pairwise distinct |
| Shows.SlugSearchBound | calchart/base/models.py:158-162 | the slug loop runs at most as many times as there are slugs, so it terminates |
| Shows.FirstFreeSlug | calchart/base/models.py:156-162 | the index found gives a free candidate, and every earlier candidate is taken |
| Shows.FreeSlug | calchart/base/models.py:156-162 | the generated slug is free, and is the base slug exactly when that is free |
| Shows.FreeSlugLeast | calchart/base/models.py:158-162 | the suffix `i` is the smallest whose candidate is free |
| Shows.SavedSlug | calchart/base/models.py:156-162 | a non-empty slug is kept; an empty one is replaced by a free one |
| Shows.SavedSlugIdempotent | calchart/base/models.py:156 | saving again against the same table keeps the slug |
| Shows.UniqueSlug | calchart/calchart/models.py:104-110 | the loop returns the first free candidate |
| Shows.CopyFields | calchart/calchart/models.py:91-94 | `slug`, `name`, `isBand` and `published` are copied from the data, stopping at the first missing key; owner, date and file are kept |
| Shows.StoredData | calchart/base/models.py:134-152 | the row after `save_data`: the copied fields, the slug `save` settles on, and the data as the file contents under `shows/<slug>.show`; a missing key is its error |
| Shows.Show.Save | calchart/base/models.py:154-164 | only the slug changes, and only when it was empty |
| Shows.Show.AssignFields | calchart/base/models.py:143-146 | the instance's fields become those `CopyFields` computes, and the failure is reported |
| Shows.Show.SaveData | calchart/base/models.py:134-152 | the instance ends as `StoredData` says, or with its copied fields and the error |
| BaseUsers.UsernameSearchBound | calchart/base/models.py:26-27 | the username loop runs at most as many times as there are usernames |
| BaseUsers.FirstFreeUsername | calchart/base/models.py:25-27 | the count found gives a free name, and every shorter run of underscores is taken |
| BaseUsers.FreeUsername | calchart/base/models.py:25-27 | the new username is free, is the requested name followed only by underscores, and is the requested name exactly when that is free |
| BaseUsers.FreeUsernameLeast | calchart/base/models.py:25-27 | no shorter run of underscores is free |
| BaseUsers.UniqueUsername | calchart/base/models.py:25-27 | the loop returns the free username with the fewest underscores |
| BaseUsers.User.constructor | calchart/base/models.py:29-33 | the created user has the username, the Members Only name and the token, no expiry and is not a superuser |
| BaseUsers.User.IsMembersOnlyUser | calchart/base/models.py:73-79 | superusers and users with a non-empty token |
| BaseUsers.User.GetUsername | calchart/base/models.py:60-65 | the Members Only name exactly for non-superusers with a token, otherwise the username |
| BaseUsers.User.SetExpiry | calchart/base/models.py:67-71 | a Members Only user's expiry becomes now plus the days; anyone else is untouched |
| BaseUsers.User.IsValidApiToken | calchart/base/models.py:81-91 | true for superusers and Calchart users; otherwise exactly when now plus a day is before the expiry; a NULL expiry is a TypeError |
| BaseUsers.User.HasCommittee | calchart/base/models.py:93-106 | superusers yes, Calchart users no, both without the endpoint; Members Only users get the endpoint's answer |
| BaseUsers.TokenValidity | calchart/base/models.py:87-91 | a token set for `ttl_days` days is valid until one day before it runs out |
| BaseUsers.CreateMembersOnlyUser | calchart/base/models.py:18-36 | a fresh user under the first free username, keeping the Members Only name and token, with the expiry set when the token is non-empty |
| BaseUsers.CreatedUserShowsMembersOnlyName | calchart/base/models.py:60-65 | a created Members Only user is shown under the name they asked for |
| CalchartUsers.User.SetExpiry | calchart/calchart/models.py:29-31 | the expiry always becomes now plus the days; nothing else changes |
| CalchartUsers.User.IsValidApiToken | calchart/calchart/models.py:33-42 | superusers always; otherwise exactly when now plus a day is before the expiry; a NULL expiry is a TypeError |
| CalchartUsers.User.HasCommittee | calchart/calchart/models.py:44-54 | superusers without the endpoint, everyone else by its answer |
| CalchartUsers.AgreesWithBase | calchart/calchart/models.py:33-54 | for a user with a token, both apps give the same validity and committee answers |
| ViewerFileMigration.ForwardName | calchart/base/migrations/0012_remove_show_beats_file.py:15 | `viewer/X.viewer` becomes `shows/X.show`; other names are unchanged |
| ViewerFileMigration.BackwardName | calchart/base/migrations/0012_remove_show_beats_file.py:17 | `shows/X.show` becomes `viewer/X.viewer`; other names are unchanged |
| ViewerFileMigration.ForwardMaps | calchart/base/migrations/0012_remove_show_beats_file.py:15 | the forward step on the literal form `viewer/` + X + `.viewer` |
| ViewerFileMigration.BackwardMaps | calchart/base/migrations/0012_remove_show_beats_file.py:17 | the backward step on the literal form `shows/` + X + `.show` |
| ViewerFileMigration.BackwardUndoesForward | calchart/base/migrations/0012_remove_show_beats_file.py:15-17 | backward after forward is the identity on every name that is not already a `shows/` name |
| ViewerFileMigration.ForwardUndoesBackward | calchart/base/migrations/0012_remove_show_beats_file.py:15-17 | forward after backward is the identity on every name that is not already a `viewer/` name |
| ViewerFileMigration.UpdatePath | calchart/base/migrations/0012_remove_show_beats_file.py:10-17 | a show without a file is unchanged; otherwise only the file name is rewritten |
| ViewerFileMigration.Wrapped | calchart/base/migrations/0012_remove_show_beats_file.py:19-25 | every show is updated, and each is saved exactly once, in table order |
| ViewerFileMigration.MigrationReversible | calchart/base/migrations/0012_remove_show_beats_file.py:49-52 | unapplying after applying restores every row of a table without `shows/` names |
| ShowVersions.VersionOf | calchart/utils/db.py:33 | a missing version is a KeyError; an int version is itself |
| ShowVersions.Upgraded | calchart/utils/db.py:34-35 | the updated data carries the target version |
| ShowVersions.UpgradeRow | calchart/utils/db.py:28-36 | shows without a file or at or above the target are unchanged; the others are stored with the updated data; an unreadable version is its error |
| ShowVersions.UpgradeRowStep | calchart/utils/db.py:33-36 | after one step the show is up to date, unchanged if it already was |
| ShowVersions.PassFrom | calchart/utils/db.py:27-36 | a successful pass keeps the number of shows |
| ShowVersions.PassSteps | calchart/utils/db.py:27-36 | a pass keeps the rows before its start and steps every later one |
| ShowVersions.PassUpToDate | calchart/utils/db.py:33 | a pass over up-to-date shows changes nothing |
| ShowVersions.DatabaseForwards | calchart/utils/db.py:22-36 | the loop computes the pass as the operation intends it, using the `Show` model's `get_data`/`save_data` |
| ShowVersions.ForwardsAsWritten | calchart/utils/db.py:26-31 | on the historical model the pass aborts with AttributeError exactly when some show has a data file, and otherwise leaves the table unchanged |
| ShowVersions.Version7AsWrittenAborts | calchart/utils/db.py:26-36 | one show at version 6: the intended pass upgrades it, the pass as written aborts |
| ShowVersions.ForwardsResult | calchart/utils/db.py:27-36 | after the pass every show with data is at or above the target; shows that were up to date are unchanged; the others hold the updated data |
| ShowVersions.ForwardsIdempotent | calchart/utils/db.py:33 | a second forward pass leaves the table of the first |
| ShowVersions.DatabaseBackwards | calchart/utils/db.py:38-42 | unapplying changes nothing |
| ShowVersions.StateForwards | calchart/utils/db.py:18-20 | the model state is unchanged |
| ShowVersions.Describe | calchart/utils/db.py:44-46 | the description starts with `Update to version ` followed by the version |
| ShowVersions.DescribeDistinguishes | calchart/utils/db.py:46 | two operations with the same description have the same target version |
| ShowVersions.Version7Upgrades | calchart/base/migrations/0013_version_7.py:7-17 | after 0013, every show below version 7 is at version 7 with no beats |
| ShowData.Field | calchart/base/actions/home.py:29 | `data[key]` is the value, or a KeyError naming the key |
| ShowData.StringField | calchart/calchart/actions.py:80 | a string value, a KeyError for a missing key, a TypeError for other values |
| ShowQueries.SlugRows | calchart/base/actions/home.py:32 | exactly the rows with the slug, in increasing order |
| ShowQueries.NoSlugRows | calchart/base/actions/home.py:32 | no row with the slug gives no match |
| ShowQueries.OnlySlugRow | calchart/base/actions/home.py:32 | a slug held by one row matches that row only |
| ShowQueries.Get | calchart/base/actions/home.py:32 | the only row with the slug; DoesNotExist exactly when none has it; otherwise MultipleObjectsReturned |
| ShowQueries.GetOr404 | calchart/base/actions/general.py:12 | as `Get`, with a 404 exactly when no row has the slug |
| ShowQueries.Created | calchart/base/actions/home.py:15-20 | the created row has the name, owner, band flag and year, no data, is unpublished, and has the first free slug for its name |
| ShowAccess.RetrieveShow | calchart/calchart/actions/utils.py:9-19 | a missing slug is a 404; a band show is denied to users outside STUNT; any other found show is returned |
| ShowAccess.RetrieveShowFinds | calchart/calchart/actions.py:58-68 | a slug held by one show returns that show, or PermissionDenied when it is a band show and the user is outside STUNT |
| ShowAccess.ShowResponse | calchart/calchart/actions/general.py:10-21 | `isInitialized` holds exactly when there is a file; then the data is sent unchanged under `show`; otherwise name, slug and band flag |
| ShowAccess.GetShow | calchart/calchart/actions/general.py:6-21 | `retrieve_show` decides access first; its error is the answer, otherwise the response for the show |
| ShowAccess.BaseGetShow | calchart/base/actions/general.py:9-27 | an answer only for a show found by the slug that is not a band show hidden from the user, and then the response for it |
| ShowAccess.GetShowsAgree | calchart/base/actions/general.py:14-27 | both apps' `get_show` agree on every table, request and user |
| CalchartActions.BandShows | calchart/calchart/actions.py:29-37 | exactly the band shows of the year, and only published ones for users outside STUNT |
| CalchartActions.OwnedShows | calchart/calchart/actions.py:38-39 | exactly the user's own non-band shows |
| CalchartActions.Entries | calchart/calchart/actions.py:43-52 | one entry per show, carrying its slug, name and published flag |
| CalchartActions.GetTab | calchart/calchart/actions.py:24-52 | `band` and `owned` list their shows; any other tab is `Invalid tab: <tab>`; a missing tab is a KeyError |
| CalchartActions.BandTabVisibility | calchart/calchart/actions.py:34-35 | what users outside STUNT see in the band tab is published and also seen by STUNT users |
| CalchartActions.TabEntriesFromTable | calchart/calchart/actions.py:43-52 | every listed entry belongs to a show of the table that passes the tab's filter |
| CalchartActions.GetShowData | calchart/calchart/actions.py:71-74 | `_retrieve_show` decides access; then the show's data, or the read error when it has none |
| CalchartActions.GetShowDataAgrees | calchart/calchart/actions.py:71-74 | data is returned exactly when the other `get_show` reports an initialized show, and it is the data that one sends |
| CalchartActions.Insert | calchart/calchart/actions.py:86-94 | one row is appended with the name, owner and year; it is unpublished, has a fresh slug and stores the request stamped with that slug and `published: false` |
| CalchartActions.Create | calchart/calchart/actions.py:77-98 | missing keys and duplicate names are errors that add nothing; otherwise the row is inserted and its slug returned |
| CalchartActions.CreateShowAsWritten | calchart/calchart/actions.py:81-94 | as written, the new row's band flag is the requested one |
| CalchartActions.NonStuntCreatesBandShow | calchart/calchart/actions.py:81-94 | a user outside STUNT who asks for a band show gets one |
| CalchartActions.CreateShow | calchart/calchart/actions.py:77-98 | the new row is a band show exactly when that was asked for and the user is in STUNT |
| CalchartActions.DuplicateNameRejected | calchart/calchart/actions.py:83-84 | a name already used raises `Show with the name ... already exists.` |
| BaseHome.CreateShow | calchart/base/actions/home.py:6-24 | missing keys and duplicate names are errors; otherwise one unpublished row without data is appended, a band show only for STUNT users, and its fresh slug is returned |
| BaseHome.CreatedShowIsFound | calchart/base/actions/home.py:20-24 | the returned slug fetches the new show as uninitialized, with its name and band flag |
| BaseHome.PublishRow | calchart/base/actions/home.py:33-40 | a show without data is `Cannot publish show before setting it up`; otherwise only that row changes, its data gets `published` and nothing else changes |
| BaseHome.PublishRowTwice | calchart/base/actions/home.py:38-40 | writing the same flag again stores the same row |
| BaseHome.PublishShow | calchart/base/actions/home.py:27-40 | missing keys and lookup errors are errors; otherwise the found show is published as `PublishRow` says |
| BaseHome.PublishTwice | calchart/base/actions/home.py:38-40 | sending the same publish request twice gives the table of sending it once, provided the request's slug is non-empty and equals the `slug` in the show's stored data; otherwise `save_data` can move the row to another slug and the second request can fail with DoesNotExist |
| BaseUtils.Collapse | calchart/base/utils.py:1-9 | a one-element list holding a list gives that list; anything else is returned unchanged |
| BaseUtils.CollapseUnwraps | calchart/base/utils.py:6-7 | collapsing a singly wrapped list unwraps it |
| BaseUtils.CollapseKeepsFlat | calchart/base/utils.py:8-9 | a list of plain values is returned as it is |
| BaseUtils.CollapseExamples | calchart/base/utils.py:3-4 | the two examples of the docstring |

## Left out

- The database, the clock and the network are parameters, as described above. `call_endpoint`, `slugify`, `reverse`, Markdown rendering and template loading are not modelled. Login checks (`LoginRequiredMixin`) and request decoding are not part of this model.
- The show table is a sequence in primary-key order rather than a map keyed by slug. Slugs are not a unique column, so a lookup can find several rows. The `unique=True` on `name` is not enforced, since the actions check names themselves.
- `json.loads`/`json.dumps` are not modelled, and show data is a decoded JSON object. The branch of `save_data` for data given as a string is therefore left out.
- `Shows.CopyFields`: the `isBand` and `published` values are stored by their Python truth value. Django's `BooleanField` would reject values other than booleans, `0`/`1` and the strings `t`, `f`, `True`, `False`, `1`, `0`.
- BaseHome.CreateShow: the band flag is `Truthy(isBand) && isStunt`. The source's `data['isBand'] and ...` (calchart/base/actions/home.py:10) hands a falsy non-boolean to `Show.objects.create` unchanged (line 20). A `null` would then violate NOT NULL (IntegrityError), and `""`, `[]` or `{}` would fail `BooleanField` conversion (ValidationError). The model instead creates a non-band show.
- CalchartActions.Create: the same coercion for calchart/calchart/actions.py:81 and the `Show.objects.create` of line 91. A falsy non-boolean `isBand` creates a non-band show in the model, where the source raises IntegrityError or ValidationError.
- `ShowData.StringField`: a `slug`, `name` or `tab` that is not a string is a `TypeError` in the model. Python would compare it or hand it to the ORM instead.
- `CalchartActions.GetTab`: a tab that is not a string is reported as a `TypeError`. The source raises `ValueError` with the value rendered, and rendering arbitrary JSON is not modelled.
- `ShowVersions.VersionOf`: only integer and boolean versions are compared. Floats and other values are a `TypeError`.
- `Shows.StoredData`: the repeated saves inside `save_data` check one fixed set of taken slugs. The row's own earlier save is not added to it. It matters only when `slugify` gives an empty slug.
- File storage is modelled as a name and its contents. Storage-side renaming (`get_available_name`, `get_valid_name`), deleting file contents, and moving files in migration 0012 are not modelled.
- Migrations 0012 and `UpdateShowVersion` run on Django's historical models, which have no custom methods. Migration 0012's `save()` is modelled as writing the row back unchanged. `UpdateShowVersion` therefore fails as written: `show.get_data()` raises AttributeError at the first show with a data file (`ShowVersions.ForwardsAsWritten`, see Findings). `ShowVersions.DatabaseForwards`, `ForwardsResult`, `ForwardsIdempotent` and `Version7Upgrades` describe the pass as intended, with the `get_data`/`save_data` of calchart/base/models.py.
- Migration 0012's regular expressions are modelled only on names of exactly the forms `viewer/X.viewer` and `shows/X.show`, with X non-empty and free of newlines. Other names are left unchanged. `re.sub` on names that merely contain such a form is not covered.
- `update` in `UpdateShowVersion` is a function from old data to new data. Exceptions it might raise are not modelled.
- `publish_show` of calchart/calchart/actions.py:101-109 and `save_show` (112-115) are not modelled. The first calls a `retrieve_show` that module does not define.
- `ManualViews.ManualSite.BuildParents`: requires that the children form a forest below the root, and that slugs are unique. On other class graphs, Python's loop overwrites entries or does not terminate.
- `ManualViews.ManualSite.ConvertChildren`: the model converts the classes in an arbitrary order where Python uses the insertion order of `ALL_PAGES`. Only which KeyError is reported can depend on the order.
- The five concrete manual classes (`RootHelp` ... `ChangeDotTypesHelp`) and the order of `globals()` are not instantiated. The manual model is stated for any list of classes and globals.
- `reversed()` returns an iterator, and `get_parents` is modelled as the list it yields. `get_url` is modelled as the slug it passes to `reverse`.
- `str.title()` is modelled for ASCII letters only.

## Findings

| source | as written | input that shows it | evidently intended | confidence | as-written member | corrected member |
|---|---|---|---|---|---|---|
| calchart/calchart/actions.py:81-94 | line 81 computes a STUNT-checked `is_band` and creates the row with it. `save_data` (line 94) then copies the raw request value `data['isBand']` back into the row (calchart/calchart/models.py:93) and into the stored data | a user outside STUNT sends `{"name": <new name>, "isBand": true}` | the row and its data carry the checked flag, as in calchart/base/actions/home.py:10-20 | not executed | CalchartActions.CreateShowAsWritten | CalchartActions.CreateShow |
| calchart/utils/db.py:26-36 | the pass loads `base.Show` from the migration state at line 26, which gives a historical model without the model's own methods, and calls `show.get_data()` on it at line 31 | a table holding one show with a data file at version 6, migrated by 0013 | each show below the target is read, updated and stored through `get_data`/`save_data` | not executed | ShowVersions.ForwardsAsWritten (ShowVersions.Version7AsWrittenAborts) | ShowVersions.DatabaseForwards |
