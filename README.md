# calibrate_base basic pages, modelled in Dafny

This project models the decision rules of the `calibrate_base` Drupal module:

- the basic pages helper, which resolves a basic page ID (the machine name of
  a `basic_pages` term) to the first node whose `field_page_id` references it,
  and a node back to its ID;
- the redirect controller, which sends `/…/{id}` to that node, and otherwise
  hands "/" to `redirect()` (see "## Findings");
- the "Basic page ID" visibility condition: `evaluate()`, `summary()`, the
  options of its configuration form, the submitted list and its default;
- the drush command that seeds the `basic_pages` vocabulary and its four terms;
- the two related-article blocks, with their guards, their node queries (stated
  as filter conditions and a sort), the item loop and their cache metadata.

Entities are records (`Entities`): a node with optional `field_page_id`,
`field_tags`, `field_address` and `field_country`; a term with an optional
machine name; a `Site` holding the node storage in storage order and the map
that reference targets load through. A field that is `None` is missing; a field
that is `Some([])` is empty. The helper, the controller, `evaluate()`,
`summary()` and the queries are functions, so none of them can change a node,
a term or the storage. The drush command is a method on a `TaxonomyStorage`
object, proved against the value-level function `Provision`. The condition's
configuration is a `BasicPageId` class whose submit handler rewrites its list.
The option loop and the item loop are methods with loop invariants, proved
against `OptionsOf` and `ItemsOf`.

Points where the model follows the code rather than the description of it:

- `getBasicPage` queries `field_page_id.entity.field_machine_name`, which
  matches any value of the field. `getId` and `isReferencingBasicPage` look
  only at delta 0: `referencedEntities()` keys the loaded entities by delta,
  and `[$term_page_id] =` reads key 0. So the page found for an ID can report
  another ID (`FoundPageMayReportOtherId`), and a node whose delta 0 target
  was deleted has no ID even when a later delta loads a basic page term
  (`MissingFirstTargetGivesNoId`).
- The "first match is not a node" guard of `getBasicPage` is modelled, but it
  cannot fire: the node storage only yields nodes.
- Neither block query restricts the content type. Any node that shares a tag,
  or the country, is selected, not only articles.
- The provisioning command checks for an existing term by name alone
  (`NameCheckIgnoresVocabulary`).

## Model

| member | source | states |
|---|---|---|
| `BasicPagesHelper.LoadByPageId` | web/modules/custom/calibrate_base/src/Helper/BasicPagesHelper.php:68-70 | the page-id query keeps exactly the stored nodes that reference a term with that machine name through any value of `field_page_id`, whichever delta, and no more nodes than are stored; an empty machine name is no stored value and matches no id |
| `BasicPagesHelper.LoadByPageIdSpec` | web/modules/custom/calibrate_base/src/Helper/BasicPagesHelper.php:68-70 | the page-id query is empty exactly when no stored node matches, and its first result is the first match in storage order |
| `BasicPagesHelper.GetBasicPage` | web/modules/custom/calibrate_base/src/Helper/BasicPagesHelper.php:67-77 | a non-null result is a stored node that matches `id`; `GetBasicPageIsFirstMatch` states when it is null and which node it is |
| `BasicPagesHelper.GetBasicPageIsFirstMatch` | web/modules/custom/calibrate_base/src/Helper/BasicPagesHelper.php:67-77 | `getBasicPage(id)` is null exactly when no stored node matches `id`; otherwise it is the first matching node in storage order |
| `BasicPagesHelper.EmptyIdFindsNoPage` | web/modules/custom/calibrate_base/src/Helper/BasicPagesHelper.php:67-77 | `getBasicPage('')` is null whatever the storage holds, since no stored machine name is empty |
| `BasicPagesHelper.GetPath` | web/modules/custom/calibrate_base/src/Helper/BasicPagesHelper.php:88-96 | null exactly when `getBasicPage` of the same id is null; otherwise the path of that node's url |
| `BasicPagesHelper.GetUrl` | web/modules/custom/calibrate_base/src/Helper/BasicPagesHelper.php:107-115 | null exactly when `getBasicPage` of the same id is null; otherwise the canonical url of that node |
| `BasicPagesHelper.ReferencedEntities` | web/modules/custom/calibrate_base/src/Helper/BasicPagesHelper.php:131 | the loaded entities are keyed by delta: a delta has an entry exactly when its target loads, and the entry is what it loads as; a deleted target leaves its delta empty and moves no other entity |
| `BasicPagesHelper.GetId` | web/modules/custom/calibrate_base/src/Helper/BasicPagesHelper.php:126-141 | null when `field_page_id` is missing or empty; non-null exactly when delta 0 of the field loads as a term with a non-empty machine name, and then it is that machine name (never empty) |
| `BasicPagesHelper.IsReferencingBasicPage` | web/modules/custom/calibrate_base/src/Helper/BasicPagesHelper.php:154-169 | true exactly when `getId(node)` is non-null and equal to `id`, so only delta 0 of `field_page_id` decides |
| `BasicPagesHelper.PageIdFindsBasicPage` | web/modules/custom/calibrate_base/src/Helper/BasicPagesHelper.php:67-77 | a stored node whose `getId` is `id` makes `getBasicPage(id)` non-null |
| `BasicPagesHelper.MissingFirstTargetGivesNoId` | web/modules/custom/calibrate_base/src/Helper/BasicPagesHelper.php:131-141 | when the target at delta 0 no longer exists, `getId` is null and `isReferencingBasicPage` is false for every id, whatever later deltas load as |
| `BasicPagesHelper.FoundPageMayReportOtherId` | web/modules/custom/calibrate_base/src/Helper/BasicPagesHelper.php:68-70 | a node whose second page-id term is `news_overview` is found for `news_overview`, yet `getId` gives `homepage` and `isReferencingBasicPage(news_overview)` is false |
| `BasicPagesController.RedirectFor` | web/modules/custom/calibrate_base/src/Controller/BasicPagesController.php:61-65 | the route-name argument is "/" exactly when there is no basic page, with no parameters; otherwise it is `entity.node.canonical` with the single parameter `node` set to the page's id |
| `BasicPagesController.RedirectTo` | web/modules/custom/calibrate_base/src/Controller/BasicPagesController.php:58-66 | always hands a route name to `redirect()`: "/" exactly when no stored node matches the id, otherwise `entity.node.canonical` with `node` set to the id of the first matching node |
| `BasicPagesController.FallbackNamesNoRoute` | web/modules/custom/calibrate_base/src/Controller/BasicPagesController.php:61-63 | for an id no stored node matches, the route-name argument names neither the front page route nor the canonical node route |
| `BasicPagesController.FrontRedirectFor` | web/modules/custom/calibrate_base/src/Controller/BasicPagesController.php:61-65 | with the front page fallback every target is a known route; it is `<front>` exactly when there is no basic page and otherwise the same as `RedirectFor` |
| `BasicPagesController.RedirectToFront` | web/modules/custom/calibrate_base/src/Controller/BasicPagesController.php:58-66 | every redirect names a known route; it is the front page exactly when no stored node matches the id, and otherwise the canonical route of the first match, equal to `RedirectTo` |
| `BasicPagesController.RedirectDependsOnlyOnBasicPage` | web/modules/custom/calibrate_base/src/Controller/BasicPagesController.php:59 | two requests whose helper lookups agree get the same redirect |
| `BasicPageIdCondition.Evaluate` | web/modules/custom/calibrate_base/src/Plugin/Condition/BasicPageId.php:153-188 | with no configured IDs, `!negated` on every route; with IDs on a node's canonical route, whether the node's page id is non-null and configured; with IDs on any other route or without a node parameter, false |
| `BasicPageIdCondition.NegationIgnoredWithIds` | web/modules/custom/calibrate_base/src/Plugin/Condition/BasicPageId.php:176-185 | with a non-empty list the negation flag does not change the result |
| `BasicPageIdCondition.DeletedFirstTargetFailsCondition` | web/modules/custom/calibrate_base/src/Plugin/Condition/BasicPageId.php:158-177 | on the page of a node whose `field_page_id` is a deleted target followed by the `homepage` term, the page id is null and a condition configured with `homepage` fails |
| `BasicPageIdCondition.Join` | web/modules/custom/calibrate_base/src/Plugin/Condition/BasicPageId.php:137 | `implode` of a single part is that part, and the joined text starts with the first part |
| `BasicPageIdCondition.Summary` | web/modules/custom/calibrate_base/src/Plugin/Condition/BasicPageId.php:145-147 | a single ID is named alone; an empty list names nothing |
| `BasicPageIdCondition.JoinSnoc` | web/modules/custom/calibrate_base/src/Plugin/Condition/BasicPageId.php:137 | `implode` of one more part appends the separator and that part |
| `BasicPageIdCondition.SummaryAppend` | web/modules/custom/calibrate_base/src/Plugin/Condition/BasicPageId.php:134-142 | for two or more IDs the summary is all IDs but the last joined by ", ", then " or " and the last; one more ID turns " or last" into ", last or new" |
| `BasicPageIdCondition.JoinMentionsEveryPart` | web/modules/custom/calibrate_base/src/Plugin/Condition/BasicPageId.php:137 | every part occurs in the joined text |
| `BasicPageIdCondition.SummaryMentionsEveryId` | web/modules/custom/calibrate_base/src/Plugin/Condition/BasicPageId.php:133-148 | every configured ID occurs in the summary |
| `BasicPageIdCondition.KeepTruthy` | web/modules/custom/calibrate_base/src/Plugin/Condition/BasicPageId.php:126 | the kept values are exactly the ticked keys that are not falsy ("" or "0"); unticked values (0) are dropped |
| `BasicPageIdCondition.KeepTruthyAppend` | web/modules/custom/calibrate_base/src/Plugin/Condition/BasicPageId.php:126 | filtering distributes over concatenation, so the submitted order is kept |
| `BasicPageIdCondition.KeepTruthyResubmit` | web/modules/custom/calibrate_base/src/Plugin/Condition/BasicPageId.php:126 | filtering an already filtered list again, every value ticked, gives it back unchanged |
| `BasicPageIdCondition.BasicPageId.SubmitConfigurationForm` | web/modules/custom/calibrate_base/src/Plugin/Condition/BasicPageId.php:125-128 | the stored list becomes the submitted values without the falsy ones; the parent handler then stores the submitted negation flag |
| `BasicPageIdCondition.BasicPageId.constructor` | web/modules/custom/calibrate_base/src/Plugin/Condition/BasicPageId.php:193-195 | without a configured list the ID list is the default, empty one |
| `BasicPageIdCondition.DefaultConfigurationPasses` | web/modules/custom/calibrate_base/src/Plugin/Condition/BasicPageId.php:193-195 | with the default (empty) list the condition is `!negated` on every route |
| `BasicPageIdCondition.TermsOfVocabulary` | web/modules/custom/calibrate_base/src/Plugin/Condition/BasicPageId.php:99-101 | the loaded terms are exactly the stored terms of the vocabulary |
| `BasicPageIdCondition.OptionsOf` | web/modules/custom/calibrate_base/src/Plugin/Condition/BasicPageId.php:104-110 | no option has an empty key; `OptionsOfSpec` states which keys and labels there are |
| `BasicPageIdCondition.OptionsOfSpec` | web/modules/custom/calibrate_base/src/Plugin/Condition/BasicPageId.php:104-110 | a key is an option exactly when some term has it as its non-empty machine name; terms without one are skipped; the key maps to the label of the last such term |
| `BasicPageIdCondition.BuildConfigurationOptions` | web/modules/custom/calibrate_base/src/Plugin/Condition/BasicPageId.php:98-110 | the loop over the `basic_pages` terms builds exactly `OptionsOf` of them |
| `BasicPagesTerms.AddVocabulary` | web/modules/custom/calibrate_base/src/Commands/BasicPagesTermsDrushCommands.php:71-77 | the terms are untouched; the vid is stored afterwards; a vocabulary already stored is left as it was, and a missing one is created with the row's title and langcode "en" |
| `BasicPagesTerms.AddTerm` | web/modules/custom/calibrate_base/src/Commands/BasicPagesTermsDrushCommands.php:80-93 | the vocabularies are untouched; at most one term is appended, exactly when no stored term has the row's name, and it is the term built from the row; afterwards a term with that name exists |
| `BasicPagesTerms.AddTerms` | web/modules/custom/calibrate_base/src/Commands/BasicPagesTermsDrushCommands.php:79-94 | the term loop leaves the vocabularies alone, keeps the stored terms as a prefix and adds at most one term per row |
| `BasicPagesTerms.AddTermsGrows` | web/modules/custom/calibrate_base/src/Commands/BasicPagesTermsDrushCommands.php:79-94 | the term loop leaves the vocabularies alone and only appends terms, each built from one of its rows, none with a name already present |
| `BasicPagesTerms.AddTermsProvides` | web/modules/custom/calibrate_base/src/Commands/BasicPagesTermsDrushCommands.php:79-94 | after the term loop a term named after each row exists |
| `BasicPagesTerms.AddTermsIdle` | web/modules/custom/calibrate_base/src/Commands/BasicPagesTermsDrushCommands.php:87-90 | when every row's name is present, the term loop changes nothing |
| `BasicPagesTerms.Provision` | web/modules/custom/calibrate_base/src/Commands/BasicPagesTermsDrushCommands.php:70-95 | the command keeps the stored terms as a prefix and every stored vid, and creates at most as many terms as the table has term rows |
| `BasicPagesTerms.ProvisionGrows` | web/modules/custom/calibrate_base/src/Commands/BasicPagesTermsDrushCommands.php:70-95 | the command only adds: existing vocabularies and terms are unchanged; each new term is built from a table row, with that vid, langcode "en" and the row's key as machine name, at a time when no term had its name |
| `BasicPagesTerms.ProvisionProvides` | web/modules/custom/calibrate_base/src/Commands/BasicPagesTermsDrushCommands.php:70-95 | after the command every vocabulary and every term name of the table exists |
| `BasicPagesTerms.ProvisionIdle` | web/modules/custom/calibrate_base/src/Commands/BasicPagesTermsDrushCommands.php:71-93 | when everything of the table exists, the command changes nothing |
| `BasicPagesTerms.ProvisionIdempotent` | web/modules/custom/calibrate_base/src/Commands/BasicPagesTermsDrushCommands.php:71-93 | running the command twice leaves the storage as running it once |
| `BasicPagesTerms.BasicPagesProvided` | web/modules/custom/calibrate_base/src/Commands/BasicPagesTermsDrushCommands.php:58-94 | after a run the `basic_pages` vocabulary exists, untouched if it was there, otherwise "Basic pages" in "en"; terms named Homepage, News overview, Articles overview and Offices overview exist |
| `BasicPagesTerms.NameCheckIgnoresVocabulary` | web/modules/custom/calibrate_base/src/Commands/BasicPagesTermsDrushCommands.php:87-90 | a "Homepage" term in another vocabulary stops the `homepage` term from being created |
| `BasicPagesTerms.TaxonomyStorage.SaveVocabulary` | web/modules/custom/calibrate_base/src/Commands/BasicPagesTermsDrushCommands.php:72-76 | saving stores the vocabulary under its vid and touches no term |
| `BasicPagesTerms.TaxonomyStorage.SaveTerm` | web/modules/custom/calibrate_base/src/Commands/BasicPagesTermsDrushCommands.php:93 | saving appends the term and touches no vocabulary |
| `BasicPagesTerms.CreateBasicPagesTerms` | web/modules/custom/calibrate_base/src/Commands/BasicPagesTermsDrushCommands.php:51-101 | the nested loops leave the storage exactly as `Provision` of the old storage and the table |
| `ArticleQuery.Filter` | web/modules/custom/calibrate_base/src/Plugin/Block/RelatedArticlesBlock.php:117-118 | a node is kept exactly when it is stored, meets the field condition and is not the excluded node |
| `ArticleQuery.InsertSpec` | web/modules/custom/calibrate_base/src/Plugin/Block/RelatedArticlesBlock.php:119 | inserting into a newest-first list keeps it newest-first and adds exactly that node |
| `ArticleQuery.SortByCreatedDesc` | web/modules/custom/calibrate_base/src/Plugin/Block/RelatedArticlesBlock.php:119 | the sort gives a newest-first permutation of its input |
| `ArticleQuery.Execute` | web/modules/custom/calibrate_base/src/Plugin/Block/RelatedArticlesBlock.php:115-121 | the query result is newest first, a permutation of the filtered nodes, and holds exactly the stored nodes that meet the conditions |
| `ArticleQuery.ItemsOf` | web/modules/custom/calibrate_base/src/Plugin/Block/RelatedArticlesBlock.php:127-129 | one item per article, in the articles' order |
| `ArticleQuery.RenderItems` | web/modules/custom/calibrate_base/src/Plugin/Block/RelatedArticlesBlock.php:127-129 | the loop builds `ItemsOf` the loaded articles |
| `ArticleQuery.CacheTags` | web/modules/custom/calibrate_base/src/Plugin/Block/RelatedArticlesBlock.php:156-160 | the tags hold `node_list:article` and every parent tag, and nothing else (identical at RelatedArticlesByCountryBlock.php:161-165) |
| `ArticleQuery.CacheContexts` | web/modules/custom/calibrate_base/src/Plugin/Block/RelatedArticlesBlock.php:165-169 | the contexts hold `route` and every parent context, and nothing else (identical at RelatedArticlesByCountryBlock.php:170-174) |
| `RelatedArticlesBlock.TagIds` | web/modules/custom/calibrate_base/src/Plugin/Block/RelatedArticlesBlock.php:114 | one id per `field_tags` value, in field order: id i is the `target_id` of value i |
| `RelatedArticlesBlock.RelatedSelection` | web/modules/custom/calibrate_base/src/Plugin/Block/RelatedArticlesBlock.php:114-121 | the selection, built from the `target_id` of each tag, is newest first and holds exactly the stored nodes other than the current one that share a tag with it |
| `RelatedArticlesBlock.Build` | web/modules/custom/calibrate_base/src/Plugin/Block/RelatedArticlesBlock.php:102-151 | empty without a node parameter with a non-empty `field_tags`, and when nothing is selected; otherwise "Related Articles", the url of the `articles_overview` basic page and one item per selected article in order |
| `RelatedArticlesByCountryBlock.CountryCode` | web/modules/custom/calibrate_base/src/Plugin/Block/RelatedArticlesByCountryBlock.php:115 | the field's `country_code` is that of its value at delta 0 |
| `RelatedArticlesByCountryBlock.CountrySelection` | web/modules/custom/calibrate_base/src/Plugin/Block/RelatedArticlesByCountryBlock.php:115-122 | the selection is newest first and holds exactly the stored nodes other than the current one whose `field_country` holds the country code of the node's address |
| `RelatedArticlesByCountryBlock.CountryName` | web/modules/custom/calibrate_base/src/Plugin/Block/RelatedArticlesByCountryBlock.php:132-142 | the heading's country is the standard-list entry for the code, or null when the code is not listed |
| `RelatedArticlesByCountryBlock.Build` | web/modules/custom/calibrate_base/src/Plugin/Block/RelatedArticlesByCountryBlock.php:103-156 | empty without a node parameter with a non-empty `field_address`, and when nothing is selected; otherwise "Articles from" the country's name, the url of the `articles_overview` basic page and one item per selected article in order |

## Left out

- `load.environment.php`: it only loads a `.env` file; there is no logic in it.
- The `create()` factories and the service wiring of the constructors: dependency injection only.
- Entity storage internals (`loadByProperties`, query execution, `loadMultiple`): storage is a sequence of records and every query is its filter and sort; `accessCheck()` is not modelled, so every stored node is visible.
- Storage holds each node once: the model does not rule out a record stored twice or two records with one nid, and for such a storage a query gives the record once per copy, where the host's query gives each nid once.
- Case-insensitive string matching: the page-id query (`BasicPagesHelper.php` lines 68-70) and the term-name lookup (`BasicPagesTermsDrushCommands.php` lines 87-89) compare the id and the name exactly in the model, while the host's entity query on a case-insensitive string field (the term `name` field, and `field_machine_name` unless its storage says otherwise) ignores case. So `getBasicPage('Homepage')` finds no node for a `homepage` term in the model, and a term named "homepage" does not stop "Homepage" from being created. In the host, `getBasicPage('Homepage')` would find a node for which `isReferencingBasicPage(node, 'Homepage')` is false, because that comparison (line 168) is a strict `===`.
- `BasicPagesHelper.GetBasicPageIsFirstMatch`: `loadByProperties` runs an unsorted query, so the database leaves the order of its results open; "the first match" is the first in storage order in the model.
- `BasicPageIdCondition.OptionsOfSpec`: the vocabulary's terms come from the same unsorted `loadByProperties`, so "the label of the last such term" fixes their order as storage order.
- `BasicPageIdCondition.KeepTruthyResubmit`: an unchanged form submits its current options, not the stored list, so a stored id that is no longer an option (its term deleted or its machine name changed) is dropped on resubmit; the lemma covers only the list filtered again.
- `ArticleQuery.SortByCreatedDesc`: the database leaves the order of nodes with the same creation date open; the model keeps them in storage order.
- Rendering and translation: `t()`, placeholder escaping and the render-array keys (`#type`, `#theme`, …) are not modelled; a block render is its heading, its "more" link and its items, and each item is the article's 'related' view, kept as the article's id.
- `Url` objects and `toString()`: a node url is its canonical route; its path is "/node/<nid>", with no aliases or base path.
- `RedirectResponse`: a redirect is the route name and parameters given to `redirect()`; absolute-url generation and the status code are host behaviour.
- The contents of `CountryManager::getStandardList()`: a parameter map.
- Cache merging: tags and contexts are sets, so only membership is stated.
- The parent condition class: the model takes from it only that its submit handler stores the submitted `negate` value; what the host does with `negate` after `evaluate()` returns is not modelled. The flag is a parameter of `evaluate()`.
- The configuration form itself (`#title`, `#type`, `#default_value`): only its options are modelled.
- `BasicPageIdCondition.OptionsOf`: the options are a map, so the order of the PHP `$options` array is not modelled (a later term that reuses a key keeps the earlier key's position), and with it neither is the order of the checkboxes, and hence of the submitted list and of `summary()`, as it follows from that array.
- PHP loose comparison in `in_array`: a null page id is treated as in no list, where PHP would also match an empty-string entry (the submit handler never stores one).
- The drush command's exception handler and its log output: `save()` never fails in the model.
- `BasicPagesHelper.GetBasicPageIsFirstMatch`: the "first match is not a node" guard is modelled but cannot be reached, because the node storage yields only nodes.

## Findings

| source | as written | input that shows it | evidently intended | confidence | as-written member | corrected member |
|---|---|---|---|---|---|---|
| web/modules/custom/calibrate_base/src/Controller/BasicPagesController.php:61-63 | when no node references the id, `redirect('/')` passes "/" as a route name; the controller base builds the url from that route name, and no route is named "/", so the request most likely ends in a route-not-found error | any id no stored node references, e.g. `Site([], map[])` with id "homepage" | redirect to the front page, `redirect('<front>')` | not executed | `BasicPagesController.FallbackNamesNoRoute` | `BasicPagesController.RedirectToFront` |
