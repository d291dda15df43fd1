# airs profile resolution, modelled in Dafny

airs is a command-line client for OpenAI endpoints. Its requests are driven by named
*profiles*: JSON files in `~/.airs`, one per profile, each tagged with a `kind` (the
chat-completions or the image-generation endpoint URL). A chat profile states only the
fields it wants to set and may `inherits` other profiles. Resolving a profile happens in
two steps. First it is flattened depth-first into one sequence: each ancestor's expansion
in declared order, then the profile itself. Then that sequence is folded over the built-in
default. `url`, `model` and `max_tokens` are last-write-wins. `messages` accumulate. Any
`json` entry switches the JSON response format on for good. Around the resolver sit
`profile_get`, which dispatches on the `kind` tag, and the commands that read, set and list
the default profile stored in `~/.airs/config.json`.

This project models that core:

- `wrappers.dfy` (`Wrappers`): `Option` and `Result`, and the error values that stand for
  the source's panics.
- `shared.dfy` (`Shared`): the message record and Rust's `u32`.
- `image.dfy` (`Image`): the image-generation profile, as a plain record.
- `chat_model.dfy` (`ChatModel`): the partial record one file states (`Intermediary`),
  the resolved record (`ChatCompletion`), `default()`, the merge step and the fold. It also
  holds an independent field-by-field description of the fold (`Expected`) and the lemmas
  that connect the two.
- `chat_resolver.dfy` (`ChatResolver`): flattening (`Expand`, `FlattenDef`, `FlattenAll`)
  and resolution (`Resolve`). It also has the source's imperative form: `Intermediate`, a
  recursive method that builds the sequence in a loop, and `Profile`, a method that folds
  with one mutable local per field. Each method is proved equal to its function.
- `io.dfy` (`Io`): the profile files as a store of parsed documents, and the profile
  directory as a class `Home`, with its entry stems and its config file. Covers `read_profile_file`,
  `read_config`, `list_profiles` and `set_default_profile`.
- `sorting.dfy` (`Sorting`): Rust's ordering on `String` and a sort, with a proof that a
  sorted permutation is unique. So this sort returns what the standard library's sort does.
- `profiles.dfy` (`Profiles`): the kind tags, `profile_get`, `profile_current_text`,
  `profile_use` and `profile_list`.

A profile file is held as a `Document`: its `kind` tag, plus the file as read into each
target shape. A reading that fails is `None`. This is how a parse failure becomes an
error value. The store of profiles is a `map` from name to `Document`.

**Added behaviour.** The source has no cycle check: `intermediate` calls itself on every
`inherits` entry without limit (src/openai_v1_chat.rs:52-54), so a cycle recurses forever.
The model passes the set of names currently being expanded down the recursion, seeded with
the profile being resolved. Meeting one of those names again fails with
`CyclicInheritance`. Only names on the current path count. A profile reached twice through
different parents (a diamond) is still expanded twice, as in the source.
`NoCycleErrorWhenRanked` proves that this check never fires on a store whose inheritance
graph has no cycle.

**Where the code may surprise a reader, the model follows the code:**

- An image profile holds `inherits`, `model`, `n`, `size` and `messages`. It has no `url`
  and no `prompt`. It is taken from its file as it stands, and nothing folds its `inherits`.
- Any `json` entry turns the JSON response format on, `json: false` included. Nothing
  turns it off.
- The name `"default"` is special only in `profile_get`. An `inherits` entry `"default"`
  is looked up in the store like any other name.
- An ancestor is read as a chat definition whatever its own `kind` tag says.
- The listing can hold the same name twice, because two files can share a stem
  (`a.json`, `a.txt`). `profile_list` marks every line equal to the current default, so
  more than one line can be marked.

## Model

| member | source | states |
|---|---|---|
| `ChatModel.Default` | src/openai_v1_chat.rs:62-70 | the built-in profile is the chat-completions URL, "gpt-4o", 550 tokens, no messages and no response format |
| `ChatModel.Merge` | src/openai_v1_chat.rs:83-100 | one definition merged in: every field it sets takes its value (any `json` entry gives the JSON format) and every field it leaves unset keeps the earlier value; the messages are the earlier ones followed by its own; the JSON format is never cleared; a definition that sets nothing changes nothing |
| `ChatModel.Fold` | src/openai_v1_chat.rs:82-101 | folding nothing leaves the base as it is; the base messages stay a prefix of the result; a JSON format in the base is never cleared |
| `ChatModel.FoldAppend` | src/openai_v1_chat.rs:82-101 | folding `xs + ys` equals continuing the fold over `ys` from the accumulator `xs` leaves |
| `ChatModel.FoldIsExpected` | src/openai_v1_chat.rs:76-101 | the fold equals the field-by-field description: for each scalar, the last definition's value that sets it; the base messages followed by every definition's messages in order; the JSON format exactly when some definition has a `json` entry, otherwise the base format |
| `ChatModel.LastSetIsLastWriter` | src/openai_v1_chat.rs:83-95 | when definition `i` sets a field and no later one does, the resolved field is definition `i`'s value |
| `ChatModel.LastSetUnset` | src/openai_v1_chat.rs:76-79 | when no definition sets a field, the resolved field keeps the base value |
| `ChatModel.JsonSticky` | src/openai_v1_chat.rs:96-100 | once the JSON format is on, folding further definitions never clears it |
| `ChatModel.JsonFalseStillSwitchesOn` | src/openai_v1_chat.rs:96-100 | a definition with `json: false` turns the JSON format on |
| `ChatModel.LaterOverridesEarlier` | src/openai_v1_chat.rs:82-101 | when a later part of the sequence sets url, model or max_tokens, the earlier part's value does not matter; the later part's messages are appended after the earlier part's |
| `ChatResolver.Expand` | src/openai_v1_chat.rs:43-58 | a missing profile fails with `ProfileNotFound`, a name already being expanded with `CyclicInheritance`; a success comes from a stored chat definition and ends with it |
| `ChatResolver.FlattenAll` | src/openai_v1_chat.rs:52-55 | no entries give the empty sequence; a success holds at least one definition per entry |
| `ChatResolver.Resolve` | src/openai_v1_chat.rs:72-110 | a missing profile fails with `ProfileNotFound`, an unparsable one with `InvalidProfileFormat`; on success every field the profile itself sets has the profile's value, whatever its ancestors set |
| `ChatResolver.FlattenDef` | src/openai_v1_chat.rs:43-60 | without `inherits` the flattening is exactly `[d]`; any successful flattening ends with the definition itself |
| `ChatResolver.Intermediate` | src/openai_v1_chat.rs:43-60 | the loop over `inherits` (read, check for a cycle, parse, recurse, append) yields exactly the flattening function's result, errors included |
| `ChatResolver.Profile` | src/openai_v1_chat.rs:72-110 | reading, flattening and folding with mutable per-field locals yields exactly `Resolve` |
| `ChatResolver.FlattenAllAppend` | src/openai_v1_chat.rs:52-55 | the expansions of `xs + ys` are those of `xs` followed by those of `ys`; the first failure wins |
| `ChatResolver.FlattenAllSingle` | src/openai_v1_chat.rs:53-54 | one `inherits` entry contributes exactly that ancestor's expansion |
| `ChatResolver.FlattenAllOk` | src/openai_v1_chat.rs:52-55 | the ancestors flatten successfully if and only if every entry expands successfully |
| `ChatResolver.FlattenWithParents` | src/openai_v1_chat.rs:52-59 | with `inherits`, the result is the ancestors' expansions in declared order followed by the definition; it fails exactly when they fail |
| `ChatResolver.FlattenEmptyParents` | src/openai_v1_chat.rs:47-59 | an empty `inherits` list yields `[d]`, as no list does |
| `ChatResolver.MissingParentFails` | src/openai_v1_chat.rs:53 | an `inherits` entry naming a profile absent from the store makes the flattening fail; it is not skipped |
| `ChatResolver.ResolveFailsOnMissingParent` | src/io.rs:39-43 | a stored profile with a missing parent fails to resolve |
| `ChatResolver.ExpandFromStore` | src/openai_v1_chat.rs:43-60 | every definition in a flattened sequence is the chat reading of some stored profile |
| `ChatResolver.FlattenDefFromStore` | src/openai_v1_chat.rs:47-58 | every element of a definition's flattening is that definition or read from the store |
| `ChatResolver.FlattenAllFromStore` | src/openai_v1_chat.rs:52-55 | every element of the ancestors' expansions was read from the store |
| `ChatResolver.SelfInheritanceFails` | src/openai_v1_chat.rs:52-54 | added check: a profile listing itself in `inherits` fails to resolve instead of recursing forever |
| `ChatResolver.MutualInheritanceFails` | src/openai_v1_chat.rs:52-54 | added check: two profiles inheriting from each other fail to resolve |
| `ChatResolver.FlattenAllFirstError` | src/openai_v1_chat.rs:52-55 | the error of the first `inherits` entry that fails to expand is the error of the whole list |
| `ChatResolver.SelfInheritanceIsCyclic` | src/openai_v1_chat.rs:52-54 | added check: a profile listing itself in `inherits`, after entries that expand, fails with `CyclicInheritance` naming itself |
| `ChatResolver.MutualInheritanceIsCyclic` | src/openai_v1_chat.rs:52-54 | added check: when `a` inherits `b` and `b` inherits `a`, each after entries that expand, resolving `a` fails with `CyclicInheritance` naming `a` |
| `ChatResolver.NoCycleErrorWhenRanked` | src/openai_v1_chat.rs:52-54 | added check: on a store whose inheritance graph is ranked (acyclic), resolution never fails with `CyclicInheritance` |
| `ChatResolver.ResolveFields` | src/openai_v1_chat.rs:72-110 | a resolved profile's url, model and max_tokens are the last value set in the flattened sequence, else `default()`'s; its messages are all messages in sequence order; its response format is JSON exactly when some definition has a `json` entry |
| `ChatResolver.EmptyProfileIsDefault` | src/openai_v1_chat.rs:62-70 | a profile with no fields and no `inherits` resolves to the chat-completions URL, "gpt-4o", 550 tokens, no messages and no response format |
| `ChatResolver.LeafProfile` | src/openai_v1_chat.rs:47-50 | a profile without `inherits` resolves to the default overridden by its own fields only |
| `ChatResolver.ChildOverridesParent` | src/openai_v1_chat.rs:82-101 | a child inheriting one leaf parent resolves to the default merged with the parent, then with the child |
| `Io.ReadProfileFile` | src/io.rs:34-44 | the lookup succeeds exactly when the profile exists and then yields its contents; otherwise it fails with `ProfileNotFound` |
| `Io.ReadConfig` | src/io.rs:16-25 | a missing config file reads as a config with no default profile; a file that parses reads as its contents; reading fails, with `InvalidConfig`, exactly when the file does not parse |
| `Io.WithoutConfig` | src/io.rs:51-59 | the kept names are the stems with every "config" removed, each other stem kept as often as it occurs |
| `Io.Listing` | src/io.rs:46-64 | the listing is sorted; it is empty when the directory is missing, and otherwise a permutation of the stems other than "config" |
| `Io.ListingMembers` | src/io.rs:49-59 | a name is listed exactly when the directory exists and holds an entry with that stem other than "config" |
| `Io.ConfigEntryIgnored` | src/io.rs:55-57 | adding a "config" entry to the directory does not change the listing |
| `Io.Home.ListProfiles` | src/io.rs:46-64 | the loop-and-sort returns the listing: sorted, without "config", every other stem present, empty without a directory |
| `Io.Home.SetDefaultProfile` | src/config.rs:18-23 | succeeds exactly when the config parses and the directory exists; an unparsable config fails with `InvalidConfig`, a missing directory with `ConfigWriteFailed`; the config file then holds exactly the new default and shows up as a "config" entry; on failure nothing changes; the listing never changes |
| `Sorting.Sort` | src/io.rs:60 | the result is sorted in Rust's string order and is a permutation of the input |
| `Sorting.SortedPermutationUnique` | src/io.rs:60 | two sorted permutations of each other are equal, so any correct sort gives the same listing |
| `Profiles.Tag` | src/profile.rs:64-67 | the chat tag belongs to the chat kind and the image tag to the image kind, and to no other |
| `Profiles.KindOf` | src/profile.rs:63-73 | a recognised tag maps to the kind whose tag it is; an unrecognised tag is no kind's tag |
| `Profiles.KindTagRoundTrip` | src/profile.rs:64-67 | each kind's tag maps back to that kind |
| `Profiles.ProfileGet` | src/profile.rs:56-74 | "default" yields the built-in chat default whatever the store holds; a missing profile or a missing `kind` fails; success implies a recognised kind; an image result is exactly the file's image reading |
| `Profiles.ChatKindDispatch` | src/profile.rs:63-66 | a chat-tagged profile yields exactly the chat resolver's result, or its error |
| `Profiles.ImageKindDispatch` | src/profile.rs:67-70 | an image-tagged profile yields the file's image reading unmerged, or fails when that reading fails |
| `Profiles.UnknownKindFails` | src/profile.rs:71-73 | any other tag fails with `UnknownProfileKind` |
| `Profiles.ProfileCurrentText` | src/profile.rs:76-80 | the stored default profile's name, or "default" when none is stored; fails, with `InvalidConfig`, exactly when the config does not parse |
| `Profiles.ProfileUse` | src/profile.rs:86-95 | succeeds exactly when the name is listed and the config parses; an unlisted name fails with `ProfileNotFound`, a listed one with an unparsable config with `InvalidConfig`; afterwards config.json holds exactly `Some(name)` as the default, so the current default is that name; on failure nothing changes; the listing never changes |
| `Profiles.Line` | src/profile.rs:107-111 | the printed line is the name after "* " when it is the current default, after two spaces otherwise |
| `Profiles.ProfileList` | src/profile.rs:101-113 | one line per listed profile, in listing order, each carrying its name; exactly the lines whose name equals the current default are starred; an unparsable config fails with `InvalidConfig` |

## Left out

- HTTP requests, the API key and response handling (src/ai.rs): network I/O.
- Argument parsing, stdin reading and the async runtime (src/main.rs, src/cli.rs). main.rs also
  refers to a `files` module and to `profile_edit`/`profile_edit_json`, which are not part of
  this model.
- JSON (de)serialisation: a file is held as its parsed readings (`Io.Document`), and a failed
  reading is `None`. Writing config.json is modelled as storing the new `Config` value.
- Paths and the home directory (src/io.rs:4-14, 34-38). A name is a store key as given. The
  source's `set_extension` replaces anything after a dot in a name, so `a.b` reads `a.json`.
  This is not modelled. A missing home directory panics in the source and is not modelled.
- File-system failures other than a missing file or directory: unreadable files, `read_dir`
  errors and non-UTF-8 entry names (all `unwrap` panics in the source). The directory's entries
  are given as strings.
- The profile files that `profile_get` reads and the entries `list_profiles` lists are the same
  directory in the source. The model takes the profile store as a separate parameter and does
  not tie its names to `Home`'s entry stems.
- A profile named "config" would read config.json itself. The model keeps the config file apart
  from the profile store.
- `profile_new` and `profile_remove` (src/profile.rs:82-84, 97-99) only log their argument.
- The private `Prof` trait (src/profile.rs:25-39) is unused.
- `tracing` logging throughout.
- Standard output: `profile_list` prints its lines with `println!` (src/profile.rs:108-110).
  The model returns them as a sequence of strings, without the newlines.
- `u32` values are only carried, never computed with, so no wrap-around arises. The range is
  enforced by the `Shared.u32` newtype.
