# LightWork: a verified model

LightWork is a WordPress plugin with two generations in one repository.

The older one is the single file `lightwork-wp-plugin.php`. The newer one is split into `includes/` (the content-type system and the ACF glue) and `Lightwork-plugin/` (the main plugin class, the template mapping editor, the sandbox editor and their two browser scripts).

This project models what those files do, in Dafny, and proves what they promise:

- **The content-type registry.** An ordered list of records stored in the option `lightwork_cpts`. The form handler creates, edits (with a rename of existing posts) and deletes records, and every stored type is registered with WordPress and ACF (`Registry`, `CptStore`, `CptSystem`, `LegacyPlugin`).
- **The ACF glue.** Normalising a type's fields into a local field group, the list-table columns, and the quick-edit save (`AcfSystem`).
- **The template mapping editor.** The whole-form save that commits a field-name-to-selector mapping only when it is complete, the single-key AJAX upsert `lw_update_mapping`, and the client-side selector path builder (`TemplateEditor`).
- **The sandbox editor.** The AJAX save strips `head`/`body` tags, assembles HTML, CSS and JS into one document, and upserts a draft page. The model also covers the script-loading condition and the field-label map (`SandboxEditor`).
- **`sandbox.js`.** The undo/redo history capped at 50 snapshots, and the drop handler that tags an element with a field (`SandboxScript`).
- **`editor-addon.js`.** The block-editor overlay listing unmapped fields, and the drop that assigns a block id and queues the mapping request (`EditorAddon`).
- **The main plugin class.** The singleton, the REST listing endpoint, the hourly batch job, and activation and deactivation of its schedule (`Plugin`).

The WordPress host is the `Wp` module:
- the options table, posts with auto-increment ids, post meta and admin notices;
- the registries of post types, ACF field groups and quick-edit hooks;
- the next scheduled cron event.

`Site` holds that state in fields that the handlers update in place. `Site.Snap()` reads the whole state as one value, so each handler is proved equal to a pure function of the state before it.

Sanitisers such as `sanitize_text_field`, `wp_kses_post`, `esc_html` and `esc_attr` are arbitrary functions, passed in a `Host` value, so every result holds whatever they do. `sanitize_key`, `absint` and the `(int)` cast are defined concretely in `Php`, with PHP truthiness (`''` and `'0'` are false) and the `?:` and `??` operators. Both browser scripts read a dragged field's name with jQuery's `.data()`. The `JQuery` module states which attribute texts that conversion makes falsy.

The same code appears in both generations for:
- registering the saved types;
- `register_cpt`;
- the ACF field group and quick edit;
- `delete_cpt`;
- the REST endpoint and the batch job.

That code is modelled once and cited for both files. The two form handlers differ, and each has its own member.

Where the plugin's documented behaviour and its code disagree, the model follows the code:
- The batch job does not rewrite every record of every type. It visits only the first page of 100 posts of each type, and it writes every named ACF field of the type, mapped or not.
- A field's type is not limited to a fixed set: any sanitised text posted for it is stored.
- The template editor's selector builder never creates an id; only the block-editor addon gives an element a fresh random id.
- Deleting a type removes only its record and its post-type registration. Its stored selector mapping `lw_template_map_<slug>` stays, and a type created later with the same slug finds it again.

## Model

| member | source | states |
|---|---|---|
| Php.SanitizeKey | Lightwork-plugin/includes/class-template-editor.php:157 | The result uses only lower-case ASCII letters, digits, `_` and `-`, and is no longer than the input |
| Php.SanitizeKeyKeepsKeys | includes/class-cpt-system.php:34 | A string that is already a key passes `sanitize_key` unchanged |
| Php.SanitizeKeyIdempotent | Lightwork-plugin/includes/class-template-editor.php:33 | Sanitising a sanitised key changes nothing |
| Php.AbsintOfNatToString | Lightwork-plugin/includes/class-lightwork-wp-plugin.php:65 | `absint` of the decimal text of n is n (round trip) |
| Php.FilterMembership | Lightwork-plugin/assets/editor-addon.js:19-20 | An element survives a filter exactly when it is in the input and passes the test |
| Php.PutAllLookup | Lightwork-plugin/includes/class-sandbox-editor.php:86-90 | After assigning `m[key(x)] = val(x)` for each x in order, each key holds the value of its last writer; untouched keys keep their values |
| Wp.Site.InsertPost | Lightwork-plugin/includes/class-sandbox-editor.php:164 | The new post gets the next auto-increment id, which is positive and unused; the post table gains exactly that post; the id invariant is kept |
| Wp.Site.UpdatePost | Lightwork-plugin/includes/class-sandbox-editor.php:160-162 | An existing post is replaced under the same id; nothing else changes |
| Wp.Site.AddNotice | includes/class-cpt-system.php:433 | The settings error is appended to the queued notices |
| Registry.FirstIndex | includes/class-cpt-system.php:376-399 | The loop with `break` finds the first record with the slug, and returns none only when no record has it |
| Registry.ReplaceFirst | includes/class-cpt-system.php:376-399 | An edit replaces the first record with the old slug and keeps every other record in place; the list is unchanged when no record has the slug |
| Registry.RemoveFirstRemovesOne | includes/class-cpt-system.php:443-451 | A delete removes exactly one record, the first with the slug, keeps the others in order, and removes nothing when no record matches |
| Registry.CreatedIsFound | includes/class-cpt-system.php:401-416 | After creating a type with a new slug, lookup by that slug finds the appended record |
| Registry.CreateThenDelete | includes/class-cpt-system.php:443-451 | Deleting a type just created with a new slug restores the previous list |
| Registry.FirstIndexAppend | includes/class-cpt-system.php:401-416 | Appending a record never changes which record an existing slug finds |
| Registry.DuplicateIsShadowed | includes/class-cpt-system.php:401-416 | Creation does not check for an existing slug. A duplicate is appended, but edit and delete reach only the earlier record, so the duplicate stays |
| Registry.KeyAll | includes/class-cpt-system.php:39 | Each supported feature is passed through `sanitize_key`, one for one, in order |
| Registry.Register | includes/class-cpt-system.php:33-79 | A type is registered if and only if the sanitised slug, singular and plural are all truthy. If so, every missing argument takes its default: public and archive on, not hierarchical, title/editor/thumbnail, rewrite slug equal to the slug, no fields. REST is shown, and the menu icon is set only when truthy. The same code is at lightwork-wp-plugin.php:49-98 |
| Registry.FieldsBeforeStep | includes/class-cpt-system.php:344-357 | Each posted field row adds its field exactly when its sanitised name is truthy |
| Registry.BuildAcfFields | includes/class-cpt-system.php:343-357 | The field loop builds exactly the form's field list, which is empty when ACF is off |
| Registry.UpdateFirst | includes/class-cpt-system.php:376-399 | The edit loop yields the list with the first record of the old slug replaced, and reports whether it found one |
| Registry.DeleteFirst | includes/class-cpt-system.php:443-451 | The delete loop yields the list without the first record of the slug |
| AcfSystem.NormalizedShape | includes/class-acf-system.php:28-46 | Every kept field has a truthy key-shaped name, a truthy label and the key `field_<slug>_<name>`. Every named definition is kept, and the result is empty exactly when no definition has a name |
| AcfSystem.KeysDetermineNames | includes/class-acf-system.php:37 | Two fields of one group with the same key have the same name |
| AcfSystem.EmptyListGetsSubtitle | includes/class-acf-system.php:18-26 | An empty field list registers a group holding the single text field `subtitle` |
| AcfSystem.NoGroupIffNoNames | includes/class-acf-system.php:18-46 | No group is registered exactly when a non-empty list has no named field |
| AcfSystem.NormalizeFields | includes/class-acf-system.php:28-42 | The loop yields exactly the normalised field list |
| AcfSystem.RegisterFields | includes/class-acf-system.php:13-62 | With ACF active and a non-empty normalised list, the group `group_<slug>` is registered; otherwise nothing is. The same code is at lightwork-wp-plugin.php:105-156 |
| AcfSystem.AddQuickEdit | includes/class-acf-system.php:70-145 | The quick-edit hooks are added for the type only when it has fields. The same code is at lightwork-wp-plugin.php:164-239 |
| AcfSystem.PutLookup | includes/class-acf-system.php:75-81 | One column assignment keeps keys unique and existing columns in place, and changes only the assigned key |
| AcfSystem.PutColumn | includes/class-acf-system.php:78 | One `$cols[key] = header` assignment overwrites the column of that key in place, or appends it when the key is new; keys stay unique |
| AcfSystem.ColumnsLookup | includes/class-acf-system.php:75-81 | After the filter, a column key holds the header of the last field with that name, or else its original value; the original columns keep their order |
| AcfSystem.ManageColumns | includes/class-acf-system.php:75-81 | The filter's loop yields exactly that column list |
| AcfSystem.SavedMetaLookup | includes/class-acf-system.php:110-120 | After a save, a meta key holds the sanitised request value exactly when a field of that name was posted; every other key is unchanged |
| AcfSystem.SaveMeta | includes/class-acf-system.php:110-120 | An autosave writes nothing; otherwise only that post's meta changes, as above |
| CptStore.RegisterEffect | includes/class-cpt-system.php:33-80 | If the guard fails, nothing changes. Otherwise the post type is registered under its sanitised slug, and the stored list, posts, meta, notices and schedule are untouched |
| CptStore.BuildRegistration | includes/class-cpt-system.php:33-74 | The guard and the defaulted arguments at the top of `register_cpt` yield exactly the registration `Register` describes, and none when the guard fails |
| CptStore.RegisterCpt | includes/class-cpt-system.php:33-80 | `register_cpt` changes the host state as that effect says. The same code is at lightwork-wp-plugin.php:49-98 |
| CptStore.RegisterAllKeepsStore | includes/class-cpt-system.php:21-26 | Registering every stored type never changes the stored list, the posts or the notices |
| CptStore.RegisterSaved | includes/class-cpt-system.php:21-26 | `register_saved_cpts` registers each stored type in order. The same code is at lightwork-wp-plugin.php:37-42 |
| CptStore.CommitEffect | includes/class-cpt-system.php:369-437 | An invalid form only queues the error notice. A valid one stores the submitted list: replace-first on an edit, append on a create. Ids, meta and the schedule are untouched |
| CptStore.EditEffect | includes/class-cpt-system.php:376-400 | An edit keeps the list's length and replaces only the first record with the old slug. When it renames, exactly the posts of the old type get the new type |
| CptStore.WrittenEdit | includes/class-cpt-system.php:376-399 | The edit's list write replaces only the first record with the old slug, keeps the set of post ids, and re-types exactly the posts of the old type when it renames |
| CptStore.CreateEffect | includes/class-cpt-system.php:401-418 | A create appends the record, leaves posts alone and queues the success notice |
| CptStore.Commit | includes/class-cpt-system.php:369-437 | The tail of the handler changes the host state as that effect says, and keeps the host's post-table invariant |
| CptStore.AddCommitNotices | includes/class-cpt-system.php:433-436 | A valid submission appends the success notice, then the template notice when a page was linked; nothing else changes |
| CptStore.WriteList | includes/class-cpt-system.php:376-418 | The list write and the rename's post update produce exactly the written state |
| CptStore.DeleteEffect | includes/class-cpt-system.php:443-458 | A delete removes the first record with the slug and unregisters that post type. Every other option (the type's selector mapping included), every other post type, the posts and their meta are unchanged. The notice is queued |
| TemplateEditor.DeleteKeepsMapping | includes/class-cpt-system.php:443-458 | Deleting a type leaves its stored selector mapping exactly as it was |
| CptStore.DeleteCpt | includes/class-cpt-system.php:443-458 | `delete_cpt` changes the host state as that effect says. The same code is at lightwork-wp-plugin.php:602-618 |
| CptSystem.TemplatePageKept | includes/class-cpt-system.php:359-367 | With "use template" set, a posted page n > 0 is stored as n; page 0 stores the id of the draft page inserted for it |
| CptSystem.InvalidFormMayLeaveDraft | includes/class-cpt-system.php:359-372 | An invalid form leaves the list and the registries untouched and queues the error, but the draft template page is already inserted when one was wanted |
| CptSystem.CreateStoresRecord | includes/class-cpt-system.php:329-431 | A valid create appends one record with the sanitised slug, the form's fields and the template page, and keeps the earlier records |
| CptSystem.HandleFormSubmission | includes/class-cpt-system.php:329-438 | The whole handler changes the host state as its effect function says, and the host's post-table invariant still holds afterwards, so submissions can follow one another |
| LegacyPlugin.CreateStoresZero | lightwork-wp-plugin.php:556-570 | The older handler's create always stores template page 0 and inserts no post |
| LegacyPlugin.TemplatePageIgnored | lightwork-wp-plugin.php:512-568 | For a form with "use template" and page 7, the older handler stores 0 where the newer one stores 7 |
| LegacyPlugin.HandleFormSubmission | lightwork-wp-plugin.php:482-595 | The older handler changes the host state as its effect function says, with the template page always 0, and keeps the host's post-table invariant |
| TemplateEditor.RebuiltFromPostedOnly | Lightwork-plugin/includes/class-template-editor.php:53-56 | The rebuilt mapping's keys are exactly the sanitised posted keys, each holding the sanitised selector last posted for it |
| TemplateEditor.RebuildMapping | Lightwork-plugin/includes/class-template-editor.php:53-56 | The loop yields exactly the rebuilt mapping |
| TemplateEditor.MissingIffUnmapped | Lightwork-plugin/includes/class-template-editor.php:57-62 | Nothing is missing exactly when every field has a non-empty selector; every missing name has none |
| TemplateEditor.MissingFields | Lightwork-plugin/includes/class-template-editor.php:57-62 | The loop yields exactly the missing names |
| TemplateEditor.ListedIffUnmapped | Lightwork-plugin/includes/class-template-editor.php:82-92 | A field is listed in the form exactly when it has no non-empty selector under its escaped name |
| TemplateEditor.SaveCommitsOnlyComplete | Lightwork-plugin/includes/class-template-editor.php:52-69 | A save stores the rebuilt mapping exactly when every field is mapped. Otherwise it only queues the error and the stored mapping is unchanged. The form then lists the fields the rebuilt mapping leaves unmapped |
| TemplateEditor.SavedSpec | Lightwork-plugin/includes/class-template-editor.php:57-67 | The save branch writes the mapping and queues `saved` exactly when every field is mapped; otherwise it leaves the options alone and queues `missing` |
| TemplateEditor.NoTemplateWritesNothing | Lightwork-plugin/includes/class-template-editor.php:33-45 | Without a stored type of that slug that has a template page, nothing is written and only the notice shows |
| TemplateEditor.RenderPage | Lightwork-plugin/includes/class-template-editor.php:25-69 | The page handler changes the host state and chooses the screen as its effect function says |
| TemplateEditor.UpdateIsUpsert | Lightwork-plugin/includes/class-template-editor.php:152-167 | Success happens exactly when the caller is an admin, the nonce holds, and the sanitised slug and field are truthy. It then sets exactly `mapping[field] = selector` and keeps every other key and option; any failure writes nothing |
| TemplateEditor.AjaxUpdateMapping | Lightwork-plugin/includes/class-template-editor.php:152-168 | The endpoint changes the host state and replies as its effect function says |
| TemplateEditor.FirstWithId | Lightwork-plugin/includes/class-template-editor.php:119 | The walk up stops at the first ancestor with an id, or at the root, and every element below it has none |
| TemplateEditor.SelectorOfIdentified | Lightwork-plugin/includes/class-template-editor.php:117-126 | An element with its own id gets the selector `#id` |
| TemplateEditor.GetSelector | Lightwork-plugin/includes/class-template-editor.php:117-126 | The `lwGetSelector` loop yields the specified path selector, `#id` for an identified element |
| TemplateEditor.WalkUp | Lightwork-plugin/includes/class-template-editor.php:118-123 | The `while` loop stops at the first element with an id, or past the root, having built the path of the elements below it; the path is empty only when no element was passed |
| SandboxEditor.MatchAt | Lightwork-plugin/includes/class-sandbox-editor.php:137 | A match of the tag pattern runs from a `<` to the first following `>` |
| SandboxEditor.MatchesTag | Lightwork-plugin/includes/class-sandbox-editor.php:137 | A `<head` or `<body` opening (or closing) tag in any letter case is matched up to and including the first `>` after the name |
| SandboxEditor.StripHeadBody | Lightwork-plugin/includes/class-sandbox-editor.php:137 | Stripping the tags never lengthens the text |
| SandboxEditor.StripSkipsTag | Lightwork-plugin/includes/class-sandbox-editor.php:137 | For any text that opens no head/body tag, followed by any complete head/body tag and then anything: the text is kept, the tag is dropped whole, and the rest is stripped on its own |
| SandboxEditor.StripRemovesEveryTag | Lightwork-plugin/includes/class-sandbox-editor.php:137 | When the input is tag-free texts interleaved with complete head/body tags, the result is exactly the texts joined: no character of any tag survives |
| SandboxEditor.StripPlain | Lightwork-plugin/includes/class-sandbox-editor.php:137 | Text in which no position opens a head/body tag is unchanged |
| SandboxEditor.StripWithoutTags | Lightwork-plugin/includes/class-sandbox-editor.php:137 | Text without `<` is unchanged |
| SandboxEditor.StripRemovesHeader | Lightwork-plugin/includes/class-sandbox-editor.php:137 | The pattern has no word boundary, so `<header>` is removed too |
| SandboxEditor.StripIgnoresCase | Lightwork-plugin/includes/class-sandbox-editor.php:137 | Upper-case and attributed `body` tags, opening and closing, are removed |
| SandboxEditor.StripNeedsClosingBracket | Lightwork-plugin/includes/class-sandbox-editor.php:137 | An unterminated tag is kept |
| SandboxEditor.StripNotIdempotent | Lightwork-plugin/includes/class-sandbox-editor.php:137 | One pass over `<<body>body>` leaves a `<body>` tag that a second pass removes |
| SandboxEditor.AssembleLayout | Lightwork-plugin/includes/class-sandbox-editor.php:142-148 | The document starts with the HTML; a truthy CSS follows in a `style` element and a truthy JS in a `script` element; with neither, the document is the HTML |
| SandboxEditor.BuildDocument | Lightwork-plugin/includes/class-sandbox-editor.php:133-148 | Unslashing, tag stripping, `wp_kses_post`, the textareas and the appended `style` and `script` blocks yield exactly the specified document |
| SandboxEditor.SaveUpsertsPage | Lightwork-plugin/includes/class-sandbox-editor.php:128-169 | Success happens exactly when the caller is an admin with a valid nonce, and a failure changes nothing. The document becomes the editor's HTML and the sandbox page's content. An existing page is updated under its id; otherwise a new page is inserted and its id stored |
| SandboxEditor.AjaxSave | Lightwork-plugin/includes/class-sandbox-editor.php:128-170 | The endpoint changes the host state and replies as its effect function says, and the host's post-table invariant still holds afterwards, so saves can follow one another |
| SandboxEditor.UpsertPage | Lightwork-plugin/includes/class-sandbox-editor.php:152-166 | An existing stored page gets the document; otherwise a page is inserted under the next id and that id is stored. The host's post-table invariant is kept |
| SandboxEditor.MetaBoxOnSavedPage | Lightwork-plugin/includes/class-sandbox-editor.php:172-176 | After a successful save, the meta box shows on the stored page, which exists and holds the editor's HTML |
| SandboxEditor.EnqueueWithoutStoredPage | Lightwork-plugin/includes/class-sandbox-editor.php:61-64 | With no page stored, a non-numeric `post` parameter on the page screen loads the editor script, since both sides cast to 0 |
| SandboxEditor.FirstWithFields | Lightwork-plugin/includes/class-sandbox-editor.php:84-85 | The loop picks the first type of that slug with a non-empty field list |
| SandboxEditor.FieldLabelsLookup | Lightwork-plugin/includes/class-sandbox-editor.php:80-94 | The label map has one key per sanitised field name, holding the last such field's label, or the name when the label is falsy |
| SandboxEditor.BuildFieldLabels | Lightwork-plugin/includes/class-sandbox-editor.php:80-94 | The nested loops yield exactly that label map |
| SandboxScript.Push | Lightwork-plugin/assets/sandbox.js:6-14 | `pushState` puts the snapshot on top, drops the oldest only when the history was full, and clears redo |
| SandboxScript.PushBounded | Lightwork-plugin/assets/sandbox.js:12 | The history never grows past 50 entries |
| SandboxScript.MovesPreserveTotal | Lightwork-plugin/assets/sandbox.js:74-97 | Undo and redo only move snapshots between the stacks, so the total and the multiset are preserved |
| SandboxScript.SoundPreserved | Lightwork-plugin/assets/sandbox.js:5-97 | Every operation keeps at least one history entry and at most 50 entries across both stacks |
| SandboxScript.NoOpCases | Lightwork-plugin/assets/sandbox.js:76-90 | Undo does nothing exactly when the history has at most one entry; redo does nothing exactly when the redo stack is empty |
| SandboxScript.RestoresTop | Lightwork-plugin/assets/sandbox.js:77-94 | The editors show the snapshot that is now on top of the history |
| SandboxScript.UndoThenRedo | Lightwork-plugin/assets/sandbox.js:74-97 | Redo after an effective undo restores the stacks and shows the undone snapshot |
| SandboxScript.RedoThenUndo | Lightwork-plugin/assets/sandbox.js:74-97 | Undo after an effective redo restores the stacks |
| SandboxScript.PushForgetsRedo | Lightwork-plugin/assets/sandbox.js:13 | After any edit, redo does nothing |
| SandboxScript.TrimEmptyIffBlank | Lightwork-plugin/assets/sandbox.js:26 | The content trims to nothing exactly when it is all JavaScript white space |
| SandboxScript.DropOn | Lightwork-plugin/assets/sandbox.js:23-28 | When there is no field, or `.data()` reads its name as falsy (`''`, `0`, `false`, `null`, `NaN`), the element is unchanged. Otherwise it is tagged with the field, and blank content becomes the `{{field}}` placeholder |
| SandboxScript.KeywordFieldIgnored | Lightwork-plugin/assets/sandbox.js:22-23 | Fields named `false` and `null` survive `sanitize_key`, yet a drop of either leaves the element alone |
| SandboxScript.DropIdempotent | Lightwork-plugin/assets/sandbox.js:23-28 | Dropping the same field twice equals dropping it once |
| SandboxScript.Editor.constructor | Lightwork-plugin/assets/sandbox.js:114-115 | The page starts with the initial texts as the only history entry |
| SandboxScript.Editor.PushState | Lightwork-plugin/assets/sandbox.js:6-14 | The stacks become the push of the current texts, and the bounds are kept |
| SandboxScript.Editor.Input | Lightwork-plugin/assets/sandbox.js:70-72 | Typing changes the texts and pushes them |
| SandboxScript.Editor.UndoClick | Lightwork-plugin/assets/sandbox.js:74-85 | The stacks and texts follow the undo function; when there is nothing to undo, the texts are unchanged |
| SandboxScript.Editor.RedoClick | Lightwork-plugin/assets/sandbox.js:87-97 | The stacks and texts follow the redo function; when there is nothing to redo, the texts are unchanged |
| SandboxScript.LastStyle | Lightwork-plugin/assets/sandbox.js:100-111 | Over the clicked element and its ancestors, innermost first: no style is left exactly when no element has a `style` attribute |
| SandboxScript.LastStyleAt | Lightwork-plugin/assets/sandbox.js:100-111 | When an element is styled and no ancestor outside it is, its style is the one left: the outermost styled element wins |
| SandboxScript.WrapperStyleWins | Lightwork-plugin/assets/sandbox.js:100-111 | A click on an unstyled element inside a styled wrapper takes the wrapper's style, and of two styled elements the outer one wins |
| SandboxScript.Editor.LocateClick | Lightwork-plugin/assets/sandbox.js:100-111 | The delegated handler runs for the clicked element and then each ancestor, and every styled one overwrites the css text. So the css ends as the outermost styled element's style, or is unchanged when none is styled. html, js and the history are unchanged |
| SandboxScript.Editor.Drop | Lightwork-plugin/assets/sandbox.js:22-34 | A drop of a field that `.data()` reads as truthy sets the HTML to the serialised preview and pushes it. With no field, or a falsy one, nothing changes |
| Plugin.Runtime.Instance | Lightwork-plugin/includes/class-lightwork-wp-plugin.php:18-23 | The first call creates the instance and every later call returns the same object |
| Plugin.Runtime.InstanceTwice | Lightwork-plugin/includes/class-lightwork-wp-plugin.php:18-23 | Two calls return the same object |
| Plugin.RestArgs | Lightwork-plugin/includes/class-lightwork-wp-plugin.php:60-67 | 10 items per page. The page is `absint` of a truthy page parameter and 1 otherwise. The order is a truthy `orderby` and `date` otherwise. The same code is at lightwork-wp-plugin.php:648-660 |
| Plugin.OrderByAllowed | Lightwork-plugin/includes/class-lightwork-wp-plugin.php:50-54 | With the validator's allow-list, the query orders by `date` or `title` only, and by the requested field when one is given |
| Plugin.PageNumberRead | Lightwork-plugin/includes/class-lightwork-wp-plugin.php:65 | A positive decimal page number is used as given; no page means page 1 |
| Plugin.NonNumericPageIsZero | Lightwork-plugin/includes/class-lightwork-wp-plugin.php:47-49 | `absint` never rejects, so the page `abc` passes validation and queries page 0 |
| Plugin.ItemOf | Lightwork-plugin/includes/class-lightwork-wp-plugin.php:73-83 | An item carries the post's id, title and link; `acf` is present exactly when ACF is active and the post has fields |
| Plugin.RestGetItems | Lightwork-plugin/includes/class-lightwork-wp-plugin.php:60-88 | One item per queried post, in order. The same code is at lightwork-wp-plugin.php:648-676 |
| Plugin.FirstPage | Lightwork-plugin/includes/class-lightwork-wp-plugin.php:93-97 | The batch sees exactly the first `min(n, 100)` of the type's n posts, in query order |
| Plugin.WriteFieldsGet | Lightwork-plugin/includes/class-lightwork-wp-plugin.php:102-106 | Only the post's named fields are set to the placeholder value |
| Plugin.WritePostsGet | Lightwork-plugin/includes/class-lightwork-wp-plugin.php:99-108 | Exactly the visited posts' named fields are set to the placeholder value |
| Plugin.BatchWrites | Lightwork-plugin/includes/class-lightwork-wp-plugin.php:90-111 | A meta value becomes `Updated via cron` exactly when ACF is active and some type's first page holds the post and names the field; every other value is unchanged |
| Plugin.BatchSkipsLaterPages | Lightwork-plugin/includes/class-lightwork-wp-plugin.php:93-97 | A post outside the first page of every type is never updated |
| Plugin.UpdateFields | Lightwork-plugin/includes/class-lightwork-wp-plugin.php:102-106 | The field loop writes the meta as specified |
| Plugin.UpdatePosts | Lightwork-plugin/includes/class-lightwork-wp-plugin.php:99-108 | The post loop writes the meta as specified |
| Plugin.BatchUpdate | Lightwork-plugin/includes/class-lightwork-wp-plugin.php:90-111 | The job changes only meta, as specified over the stored types. The same code is at lightwork-wp-plugin.php:681-702 |
| Plugin.CronLifecycle | Lightwork-plugin/includes/class-lightwork-wp-plugin.php:113-124 | Activation leaves an event scheduled and keeps an existing one, and is idempotent. Deactivation leaves nothing scheduled and does nothing when nothing was scheduled |
| Plugin.Activate | Lightwork-plugin/includes/class-lightwork-wp-plugin.php:113-117 | The schedule becomes the activated one. The same code is at lightwork-wp-plugin.php:707-711 |
| Plugin.Deactivate | Lightwork-plugin/includes/class-lightwork-wp-plugin.php:119-124 | The schedule becomes the deactivated one. The same code is at lightwork-wp-plugin.php:716-721 |
| EditorAddon.UnmappedIff | Lightwork-plugin/assets/editor-addon.js:17-26 | A field is listed exactly when it belongs to the type and has no truthy selector: an own mapping entry decides when present, otherwise a name inherited by the mapping object hides the field |
| EditorAddon.InheritedNameHidden | Lightwork-plugin/assets/editor-addon.js:20 | A field named `constructor` without its own mapping entry is never listed, because the lookup finds the inherited member |
| EditorAddon.FreshId | Lightwork-plugin/assets/editor-addon.js:40 | A generated id starts with `lw-` and has 3 to 11 characters |
| EditorAddon.FreshIdOfZero | Lightwork-plugin/assets/editor-addon.js:40 | A random value of 0 yields the bare id `lw-` |
| EditorAddon.FreshIdLength | Lightwork-plugin/assets/editor-addon.js:40 | Long enough random text yields `lw-` plus its characters 2 to 9 |
| EditorAddon.BlockId | Lightwork-plugin/assets/editor-addon.js:38-42 | A block keeps a truthy id and otherwise gets a fresh one; the id is never empty |
| EditorAddon.Addon.constructor | Lightwork-plugin/assets/editor-addon.js:2 | Without `lwFieldData`, the addon is inactive; otherwise the overlay is hidden and empty |
| EditorAddon.Addon.BuildList | Lightwork-plugin/assets/editor-addon.js:17-26 | The list becomes exactly the unmapped fields, in field order, with inherited names of the mapping object counted as mapped |
| EditorAddon.Addon.MakeDroppable | Lightwork-plugin/assets/editor-addon.js:28-33 | Every block ends up flagged; a block is set up once only, and never again once flagged |
| EditorAddon.Addon.ButtonClick | Lightwork-plugin/assets/editor-addon.js:12-15 | The overlay toggles. When it opens, the list is rebuilt and every block is flagged, with each unflagged block set up exactly once. When it closes, the list and every block are unchanged. No block's id changes, and each block stays set up at most once |
| EditorAddon.Addon.Drop | Lightwork-plugin/assets/editor-addon.js:35-46 | When `.data()` reads the field name as falsy (`''`, `0`, `false`, `null`, `NaN`), nothing happens. Otherwise the block gets its id, one request is queued, the item leaves the list, and the local mapping gets `#id` for the field |
| EditorAddon.DroppedFieldLeavesList | Lightwork-plugin/assets/editor-addon.js:17-45 | After a drop, rebuilding the list omits the dropped field and shows every other field as before |

## Left out

- Rendering. Covered here are the admin page markup and its routing, the content-type form and list, and the sandbox editor markup. It also includes the meta box bodies, the custom-column output, `quick_edit_custom_box`, the `admin_footer` script, and the `single-lightwork_item.php` template. They produce HTML and change no state.
- Hook and menu wiring. This covers the plugin constructor's `add_action` calls, `register_admin_menu`, `register_page`, `register_rest_routes` as a call, and the template editor's `add_meta_boxes`. It is configuration of the host; the callbacks it names are modelled.
- WordPress internals are reduced to state updates:
  - `register_post_type` is a map entry.
  - `acf_add_local_field_group` is a map entry under the group key.
  - `unregister_post_type` is key removal.
  - `wp_update_post`, `$wpdb->update` and `update_post_meta` are map updates.
  - `wp_next_scheduled`, `wp_schedule_event` and `wp_unschedule_event` are one optional timestamp.
- Wp.Site.InsertPost: `wp_insert_post` never fails here; its 0 on failure is not modelled.
- `update_field` writes the meta key named by the field only; ACF's companion `_name` reference key is not modelled.
- `WP_Query`, `get_the_title`, `get_permalink` and `get_fields` are parameters of the REST and batch members. The query's own defaults (status, order) and the hourly recurrence are not modelled.
- `time()` is the `now` parameter and `Math.random` is the `random` parameter, because clocks and randomness are outside the model.
- The sanitisers and escapers other than `sanitize_key` and `absint` are arbitrary functions, so no property depends on what they do.
- Translation with `__()`: notices are identified by their codes.
- Nonce and capability checks are boolean inputs. A failed `check_admin_referer` ends the request, modelled as the `Died` screen. A failed `check_ajax_referer` is the `NonceFailed` reply.
- `check_ajax_referer` falls back to `_ajax_nonce` when `nonce` is absent, so the addon's request name is not a modelled failure. Which action its nonce was created for is outside these files.
- Options holding a value of an unexpected kind are read as the handler's default.
- Php.IntOf: reads optional white space, an optional sign and leading decimal digits. Exponent forms such as `1e3` and 64-bit saturation are not modelled, because integers are unbounded.
- jQuery's `.data()` converts the `data-field` text. The drop handlers' truthiness test follows that conversion: `JQuery.DataFalsy` holds for `''`, `0`, `false`, `null` and `NaN`. A truthy converted value is modelled as the attribute text itself. That differs only for JSON-shaped texts (`{…}`, `[…]`), which parse to an object or array, and a field name can contain neither bracket after `sanitize_key`.
- TemplateEditor.Lower: folds only ASCII letters, while `tagName.toLowerCase()` folds all of Unicode. A custom-element tag name with non-ASCII upper-case letters would keep them in the selector.
- The DOM is abstracted:
  - The sandbox drop's serialisation of the preview body is the `serialize` parameter.
  - The `lwGetSelector` walk is over a list of ancestors.
  - `updatePreview` and `attachDroppable` only redraw the preview.
  - Click-to-locate's caret placement and focus in the HTML editor are not modelled; its css update is `SandboxScript.Editor.LocateClick`. The chain of the clicked element's ancestors is given as the list of their `style` attributes.
  - The names the mapping object inherits from `Object.prototype` are the `inherited` input of the field data. The page that defines `lwFieldData` is not part of this model.
- The addon's queued request is not sent. The server's handling of it is `TemplateEditor.AjaxUpdateMapping`.
- Concurrent administrators: each request is modelled as one atomic step.
- Plugin.RestArgs: the post type is passed through as given. The route pattern `[a-z_-]+` and its `sanitize_key` validator, which accepts any non-empty key, are not modelled.
- AcfSystem.ManageColumns: requires the incoming columns to have unique keys, as every PHP array has.
- SandboxEditor.SaveUpsertsPage: requires a positive next post id, which auto-increment ids always are; `SandboxEditor.AjaxSave` gets it from the `Site` invariant.
- SandboxEditor.MetaBoxOnSavedPage: same requirement, for the same reason.
- `remove_post_type_support` on the sandbox page and the legacy plugin's unused `$use_template` locals in `register_acf_fields` have no effect on modelled state.

## Findings

| source | as written | input that shows it | evidently intended | confidence | as-written member | corrected member |
|---|---|---|---|---|---|---|
| lightwork-wp-plugin.php:512-568 | `handle_form_submission` reads `$use_template` and `$template_page` without ever assigning them. The only assignments, in `register_acf_fields` (lines 121-122), are locals of another method. So no draft page is inserted and every stored record has template page 0 | a valid create with "use template" checked and page `7` | read the checkbox and the page as the newer handler does (includes/class-cpt-system.php:359-367): store 7, or insert a draft page when no page is given | not executed; high | LegacyPlugin.TemplatePageIgnored | CptSystem.TemplatePageKept |
