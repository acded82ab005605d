# Collection grid standardization and smart filter redirects

This project models two storefront scripts of a Shopify theme.

**The collection grid standardization engine** (`CollectionGridStandardization`) normalises product cards on collection pages. It works in place:
- It adds marker classes.
- It writes the list-item flex layout on `LI` items.
- It gives image wrappers a 4/5 aspect ratio.
- It gives images a cropped cover fit and lazy loading, the latter only when no `loading` attribute is set.
- It appends a placeholder to a wrapper whose image is missing. The placeholder is appended at most once.

A `processingQueue` set guards each card against re-entry. Node insertions reported by a mutation observer go into a single throttle slot. When the timer fires, the cards of the captured batch are gathered into an insertion-ordered set without duplicates. Each card gets one pass, and their number is announced when there is at least one.

The engine is modelled as a Dafny class with methods and loops (`grid_standardization.dfy`). A card, its image wrapper, its image and its title and price labels are classes whose fields the methods update. The results of selector queries are constant fields, because the marker classes the engine adds match none of its selectors. A ghost log `standardized` records the cards a pass has run on, in order.

**The smart filter enhancer** (`SmartFilterEnhancer`) decides on page load whether to redirect:
- On `/collections/all`, it adds the `gf_516964=Modest` filter unless the first value of that parameter already is `Modest`.
- On the four retailer collections, it sends the browser to `/collections/all`, filtered by modest and by the retailer. It keeps only the page number.

This part is pure (`smart_filter_enhancer.dfy`). It sits on two more modules:
- the `get`/`set` operations of URLSearchParams, from section 6.2 of the WHATWG URL Standard (`search_params.dfy`);
- the application/x-www-form-urlencoded parser and serializer, from sections 5.1 and 5.2 of the same standard (`form_urlencoded.dfy`).

Each redirect is modelled as the href the script would assign. Landing on that href is modelled by `Navigate`. The main results are these:
- The two conditions exclude each other, so at most one redirect happens.
- The exact query of each target is pinned down.
- No redirect loop is possible: the target of either redirect triggers none.

The debounce of the mutation observer is modelled as written. `handleMutations` clears the armed timer, and the new closure captures only its own `mutations` argument. So a flush processes the most recent batch only, not the union of the bursts since the last flush. `HandleMutations` therefore replaces the pending slot.

## Model

| member | source | states |
|---|---|---|
| GridStandardization.ListItemStyleSpec | assets/collection-grid-standardization.js:68-74 | a list item gets listStyle none, margin 0, padding 0, display flex and flexDirection column; every other style property is kept |
| GridStandardization.ItemStyleSpec | assets/collection-grid-standardization.js:68-74 | only an item whose tag is LI is restyled; any other item's style is left exactly as it was |
| GridStandardization.ImageStyleSpec | assets/collection-grid-standardization.js:116-117 | an image gets objectFit cover and objectPosition center; every other style property is kept |
| GridStandardization.LazyLoadingSpec | assets/collection-grid-standardization.js:120-122 | loading is set to lazy only when absent; an existing value and every other attribute are never overwritten |
| GridStandardization.StyleUpdatesIdempotent | assets/collection-grid-standardization.js:65-122 | applying the list-item layout, the image fit, the aspect ratio or lazy loading a second time changes nothing |
| GridStandardization.PlaceholdersAfterAdd | assets/collection-grid-standardization.js:172-186 | a wrapper that already has a placeholder keeps its count unchanged; one without gets exactly one; so the count never drops and never passes one when it started at one or less |
| GridStandardization.StandardizedState | assets/collection-grid-standardization.js:59-89 | after a pass the card has its marker; an LI has listStyle none, margin 0, padding 0, display flex and flexDirection column; the wrapper has its marker, aspectRatio 4/5 and a placeholder where needed; the image has its marker, cover fit, center position and a loading attribute; title and price have their markers |
| GridStandardization.PassKeepsCard | assets/collection-grid-standardization.js:59-89 | a pass on one card keeps another card in the standardized state, even when the two share a wrapper, image or label |
| GridStandardization.PassKeepsStandardized | assets/collection-grid-standardization.js:59-89 | a pass on one card, changing nothing outside that card's parts, keeps every already standardized card standardized |
| GridStandardization.CollectAddedItems | assets/collection-grid-standardization.js:219-234 | the gathered list has no duplicates, and its members are exactly the inserted elements matching the item selector plus the matching elements below inserted elements; non-element nodes contribute nothing |
| GridStandardization.AddItem | assets/collection-grid-standardization.js:226 | Set.prototype.add on an insertion-ordered set: a card already present keeps its place, a new one is appended, and duplicates never arise |
| GridStandardization.AddNodeItems | assets/collection-grid-standardization.js:223-232 | one inserted node adds itself when it is an item, then the items below it: a new item card lands right after the earlier members, ahead of anything found below it; the set stays duplicate-free and keeps its earlier order |
| GridStandardization.AddAll | assets/collection-grid-standardization.js:230-231 | adding the items below a node adds exactly those cards, keeps the earlier order and creates no duplicate |
| GridStandardization.CollectionGridStandardization.constructor | assets/collection-grid-standardization.js:28-43 | init runs one pass on every item of every grid on the page in document order, and every one of them ends standardized; it connects the observer and ends initialized, with an empty processing set and no pending flush |
| GridStandardization.CollectionGridStandardization.StandardizeExistingGrid | assets/collection-grid-standardization.js:48-54 | every item of every grid gets one pass, grid after grid in document order; every one of them ends standardized, and no card that was standardized leaves that state; the processing set is empty again |
| GridStandardization.CollectionGridStandardization.StandardizeItems | assets/collection-grid-standardization.js:52 | each item of a list gets one pass in order; every item ends standardized, even after later items' passes on shared parts, and no card that was standardized leaves that state |
| GridStandardization.CollectionGridStandardization.StandardizeGridItem | assets/collection-grid-standardization.js:59-89 | a card already in the processing set is left entirely unchanged; otherwise it gets one pass and ends standardized; either way the processing set ends as it began and no standardized card leaves that state |
| GridStandardization.CollectionGridStandardization.StandardizeCard | assets/collection-grid-standardization.js:65-86 | the card's marker and LI layout, the wrapper and image standardized, a placeholder exactly when the wrapper needs one, and the title and price markers |
| GridStandardization.CollectionGridStandardization.StandardizeImageWrapper | assets/collection-grid-standardization.js:94-106 | the wrapper gets its marker and aspectRatio 4/5, its image (if any) is standardized, and its placeholders are untouched |
| GridStandardization.CollectionGridStandardization.StandardizeImage | assets/collection-grid-standardization.js:111-126 | the image gets its marker, the cover fit and lazy loading when missing; one more error listener is attached on every call |
| GridStandardization.CollectionGridStandardization.StandardizeProductInfo | assets/collection-grid-standardization.js:131-142 | a found title gets the title marker, a found price the price marker, and nothing else of them changes |
| GridStandardization.CollectionGridStandardization.HandleMissingImages | assets/collection-grid-standardization.js:147-154 | a placeholder is requested exactly when a wrapper exists and its image is missing, has an empty src, or has a src containing no-image; the wrapper's classes and style are untouched |
| GridStandardization.CollectionGridStandardization.AddImagePlaceholder | assets/collection-grid-standardization.js:172-187 | nothing happens when a placeholder is present; otherwise exactly one is appended |
| GridStandardization.CollectionGridStandardization.HandleImageError | assets/collection-grid-standardization.js:159-167 | with a closest wrapper, the wrapper gets a placeholder by the same rule and the image is hidden; without one, nothing changes |
| GridStandardization.CollectionGridStandardization.Deliver | assets/collection-grid-standardization.js:204-206 | a connected observer hands each batch to handleMutations; a disconnected one delivers nothing |
| GridStandardization.CollectionGridStandardization.HandleMutations | assets/collection-grid-standardization.js:214-218 | the armed flush is discarded, and the new one captures this batch alone |
| GridStandardization.CollectionGridStandardization.Flush | assets/collection-grid-standardization.js:218-245 | the timer empties the slot and runs the flush on the batch it captured; with nothing armed nothing happens |
| GridStandardization.CollectionGridStandardization.FlushBatch | assets/collection-grid-standardization.js:219-244 | each card of the batch gets exactly one pass and ends standardized, no standardized card leaves that state, and the count is reported exactly when it is positive and equals the number of distinct cards |
| GridStandardization.CollectionGridStandardization.HandleResize | assets/collection-grid-standardization.js:290-296 | every wrapper gets aspectRatio 4/5 again, and nothing else of it changes |
| GridStandardization.CollectionGridStandardization.Destroy | assets/collection-grid-standardization.js:371-381 | the observer is disconnected, the pending flush is cancelled, the processing set is emptied and the engine is no longer initialized |
| GridStandardization.DistinctCardinality | assets/collection-grid-standardization.js:241-243 | a duplicate-free list has as many members as the set it holds, so the announced count is the set's size |
| FormUrlencoded.Encode | assets/smart-filter-enhancer.js:64 | the percent-encoded form of a name or value never contains a separator '&', '=' or '?' |
| FormUrlencoded.DecodeEncode | assets/smart-filter-enhancer.js:64 | decoding undoes encoding for every string |
| FormUrlencoded.Serialize | assets/smart-filter-enhancer.js:64 | a serialized query contains no '?' and is empty exactly when the list is empty |
| FormUrlencoded.ParseSerializePair | assets/smart-filter-enhancer.js:64 | parsing a serialized pair gives back the pair |
| FormUrlencoded.ParseSerialize | assets/smart-filter-enhancer.js:64 | parsing a serialized query gives back exactly the list, in order |
| SearchParams.FirstIndex | assets/smart-filter-enhancer.js:43 | the position of the first pair with the name, with no such pair before it |
| SearchParams.Get | assets/smart-filter-enhancer.js:43 | get is absent exactly when no pair has the name, and otherwise yields the value of a pair with it |
| SearchParams.GetFirst | assets/smart-filter-enhancer.js:43 | get returns the value of the first pair with the name |
| SearchParams.WithoutMembers | assets/smart-filter-enhancer.js:62 | removing a name keeps exactly the pairs of other names |
| SearchParams.Count | assets/smart-filter-enhancer.js:62 | no pair carries the name exactly when its count is zero |
| SearchParams.Set | assets/smart-filter-enhancer.js:62 | after set, the new pair is in the list |
| SearchParams.SetPresent | assets/smart-filter-enhancer.js:62 | when the name is present, set replaces the first occurrence in place and removes the later ones |
| SearchParams.SetAbsent | assets/smart-filter-enhancer.js:109-117 | when the name is absent, set appends the pair |
| SearchParams.GetSet | assets/smart-filter-enhancer.js:62 | after set, get of that name returns the new value |
| SearchParams.GetSetOther | assets/smart-filter-enhancer.js:62 | set leaves get of every other name unchanged |
| SearchParams.WithoutGet | assets/smart-filter-enhancer.js:62 | removing one name leaves get of every other name unchanged |
| SearchParams.CountSet | assets/smart-filter-enhancer.js:62 | after set exactly one pair carries the name |
| SearchParams.WithoutSet | assets/smart-filter-enhancer.js:62 | set keeps every pair of another name, in its original order |
| SearchParams.WithoutIdempotent | assets/smart-filter-enhancer.js:62 | removing a name twice is removing it once |
| SmartFilterEnhancer.ParamsOf | assets/smart-filter-enhancer.js:42 | the parsed query of a location has no more pairs than its search string has characters |
| SmartFilterEnhancer.Navigate | assets/smart-filter-enhancer.js:64-66 | the path the browser lands on contains no '?' |
| SmartFilterEnhancer.NavigateJoin | assets/smart-filter-enhancer.js:64-66 | an href path?query lands on that path, with ?query as its search part, or none when the query is empty |
| SmartFilterEnhancer.LandOn | assets/smart-filter-enhancer.js:64-66 | an href built as path + '?' + serialized query lands on that path with exactly that query |
| SmartFilterEnhancer.ShouldApplyModestFilter | assets/smart-filter-enhancer.js:40-53 | holds exactly when the path is /collections/all and the first gf_516964 value is missing or not Modest |
| SmartFilterEnhancer.ApplyModestFilter | assets/smart-filter-enhancer.js:59-67 | the target is /collections/all with the original query where gf_516964 is set to Modest; it carries the parameter exactly once, and every other pair is kept in its original order |
| SmartFilterEnhancer.ShouldRedirectRetailerCollection | assets/smart-filter-enhancer.js:72-82 | holds exactly for the four retailer paths, and never together with the modest condition |
| SmartFilterEnhancer.RetailerName | assets/smart-filter-enhancer.js:92-101 | a retailer name is one of ASOS, Uniqlo, Mango and Revolve, and is never found on /collections/all |
| SmartFilterEnhancer.RetailerQuery | assets/smart-filter-enhancer.js:106-118 | the query is exactly gf_516964=Modest, gf_516921=retailer, then page=value only when page is present and non-empty; nothing else survives |
| SmartFilterEnhancer.RedirectToFilteredAllProducts | assets/smart-filter-enhancer.js:87-123 | a target exists exactly on a retailer path; it lands on /collections/all with exactly the retailer query |
| SmartFilterEnhancer.Init | assets/smart-filter-enhancer.js:23-35 | both checks run in order; at most one href is assigned, none exactly when neither condition holds, and otherwise that redirect's href |
| SmartFilterEnhancer.ModestTargetIsFinal | assets/smart-filter-enhancer.js:43-62 | the modest redirect's target triggers no further redirect |
| SmartFilterEnhancer.RetailerTargetIsFinal | assets/smart-filter-enhancer.js:109-120 | the retailer redirect's target triggers no further redirect |
| SmartFilterEnhancer.NoRedirectLoop | assets/smart-filter-enhancer.js:27-34 | wherever a page load sends the browser, the next page load stays |

## Left out

- The DOM, CSS selector matching and the MutationObserver are not modelled. Selector results are constant fields of the cards. An inserted node states whether it is an item and which items lie below it.
- Timer durations are not modelled: the 100 ms throttle, the 250 ms resize debounce and the 300 ms delay of `handleFilterUpdate`. The throttle is a single pending slot, and `Flush` is the timer firing.
- `handleFilterUpdate` and the `collection:updated` and `shopify:section:load` listeners are not modelled separately. They only schedule or call `standardizeExistingGrid`, which `StandardizeExistingGrid` models.
- The resize listener's debounce is not modelled; `HandleResize` is the call it makes.
- `initPerformanceMonitoring` is not modelled: performance marks, `Date.now`, and the rewrapping of `standardizeGridItem` touch only timing.
- The `grid:standardized` event, with its timestamp, is not modelled. `Flush` returns the optional item count instead.
- The asynchronous firing of image error events is not modelled. `HandleImageError` is the handler, given the image's closest wrapper. The `once` removal of the listener that fired is not modelled.
- `getStats` is not modelled: its percentage is a floating-point `toFixed` string.
- The debug mode toggles and all console logging are not modelled.
- The assignment to `window.location.href` is not modelled. The redirect functions return the href instead.
- The SVG content of the placeholder is not modelled; a wrapper counts its placeholders.
- The mutation record that a placeholder's own insertion produces is not modelled.
- UTF-8 percent-encoding of characters outside ASCII is not modelled. Such characters pass through unchanged, which keeps the query structure intact.
- Decode: percent-encoded bytes 80 to FF are decoded one byte at a time, to the code point of that byte, not as UTF-8 sequences. An all-ASCII search such as `?q=%C3%A9` is therefore parsed to a value of two characters, and the modest redirect built from it serializes that value as they are. The script would write `q=%C3%A9` back. For such queries the modelled href differs from the script's.
- `Navigate` assumes hrefs without a fragment, as the script builds them.
- `inspect_filter.js` is not part of this model. It is a console-only debugging script.
- StandardizeGridItem: its contract states the guard, the restored processing set, the log entry and the standardized state of the card. The exact change a pass makes, with every other class, style property and attribute kept, is stated by `StandardizeCard`.
- StandardizeItems: after all passes, it states the standardized state of every item. The exact change each pass made is stated per pass by `StandardizeCard` only.
- StandardizeExistingGrid: like `StandardizeItems`, it states the end state of every card, not the exact change each pass made.
- constructor: like `StandardizeExistingGrid`, it states the end state of every card on the page, not the exact change each pass made.
- FlushBatch: like `StandardizeItems`, it states the end state of every gathered card, not the exact change each pass made.
