# Models of the client library

This project models the parts of the repository's botocore fork (and of the requests and chardet copies inside it)
where the logic is hard, and proves what they are for.

* **Codecs.** A value is turned into an XML tree by `serialize.py` and read back by `parsers.py`, which is separate
  code; both follow a map of possibly recursive shapes. `Shapes`, `Xml`, `XmlSerializer`, `XmlParser`, `Codecs`,
  `XmlRoundTrip`, `XmlBody`, `XmlReading` and `XmlRecursion` hold the specification, the round trip, what any document is
  read as and when parsing ends; `XmlElements` and `XmlParsing` are the methods that build elements in place and parse them. `QuerySerializer`,
  `QueryKeys`, `QueryCollisions`, `QueryPlaces`, `QueryRequest` and `QueryParameters` do the same for the flat query dictionary.
  `Validator`, `Conformance`, `ParamValidators`, `JsonSerializer`, `Totality` and `ValidatedRequests` say what
  validation reports and that it makes the serializers total.
* **Pagination.** `Pagination` is the page loop with truncation and resume tokens, for every finite chain of pages with
  no two equal tokens in a row; `PaginationPages` tells a run from the pages alone, and `PaginationResume` joins two
  runs by the token.
* **Event emitter.** `TrieSpec` and `PrefixTries` are the wildcard trie and its linked nodes, `TrieOrder` the order in
  which it finds its handlers, `EmitterSpec` and `Emitters` the emitter with its lookup cache and unique ids. `EmitterFamilies` is the specification of copies that
  share id entries, `EmitterRuns` the objects that run as it says, with shared caches; `SharedCounts`, `UniqueIds` and
  `LiveHandlers` say what is registered at any point of a run.
* **Retrying.** `RetryHandlers` and `RetryLoop` are the checkers and the send loop, and `RetryPolicies` says from the
  configuration alone what they do; the service is an arbitrary
  function from attempts to responses or exceptions. `RetryConfigs` and `RetryConfigBuilds` build a service's retry
  configuration in dictionaries that are shared and rewritten in place. `MergeRuns` is the merge on dictionaries shared in
  any way; `RetryConfigSharing` says when a heap can show the merged configuration at all, `MergeSafety`, `MergesRight`,
  `MergesWrong` and `MergesScalar` when the loops produce it.
* **Model builder.** `ShapeBuilder`, `ShapeNames`, `ShapeSharing` and `StructureBuilders`: a tree of shapes becomes a map
  of named shapes.
* **Algorithms.** `TreeHash`, `DotSegments` and `DotSegmentsExact`, `Skeletons`, `SkeletonRuns` and `SkeletonReaches`, `Requote`,
  `RequoteMeaning`, `RequoteSettling` and `RequoteCharacters`, `IterLines`, and the escape automata of chardet with their literal tables
  (`EscMachines`, `EscLanguages`, `EscProbers`).

`Results`, `Numerals`, `Assignments` and `Dots` are shared helpers: decimal numerals, dictionaries filled by
assignments, dotted names.

Code that updates objects or dictionaries is modelled by classes and methods, each tied to a specification function;
the theorems are about those functions. Hash functions, base64, timestamps and the text of scalars enter as function
parameters with inverse laws where the round trip needs them; floats there are the finite doubles.

The code departs from its own documentation in places, and the model follows the code:

* `paginate.py:75` forgets the starting token of a resumed run, and the offset into the first page is kept for later
  pages (`PaginationResume.ResumeTokenIsRight` is the exact condition, `ResumedRunForgetsItsToken` an example).
* `utils.py:51-89` says it follows a standard but treats every segment that starts with a dot as a dot segment
  (`DotSegmentsExact.NormalizeIsRfcIff` is the exact condition for its answer to be the standard's).
* `utils.py:518-531` recurses without end on cycles of lists and maps, although it tracks the structures it is in
  (`SkeletonReaches.SkeletonIffClear` is the exact condition for a skeleton).
* `parsers.py:282-330` hands a repeated element of a recursive structure on as the list it came in, and never gets past it
  (`XmlRecursion.ParsesIffClear`).
* `model.py:507-541` accepts a name for the builder and never stores it, so building raises AttributeError.
* `model.py:567-572` names a list's member after the list itself when the list has an explicit name.
* `retryhandler.py:103-120` drops the retryable exceptions of a configuration with a single policy, and an unknown
  policy ends in a NameError instead of the ValueError it means to raise (`retryhandler.py:131-144`).
* `hooks.py:345-364` promises handlers from the most specific to the least, but a star is followed before a name at the
  same place, so a shorter pattern can come first (`TrieOrder.SearchInOrder` is the exact order, `ShorterStarFirst` an
  example).
* `hooks.py:336-342` shares the cache and the id entries among copies, so a counted id is counted in all of them.
* `serialize.py:204-220` replaces the number of an inner list by its member's name, so two inner lists meet.
* `vendored/requests/utils.py:395-434` can close decoded digits up to a new escape, so a URI loses its meaning and is not
  settled by one round (`RequoteSettling.RequoteDecodesIff`, `RequoteSettles`).
* `translate.py:519-522` puts the definition's own dictionary where a reference was, so a later merge writes into it, and
  may read what it has written (`MergesScalar.RightIffSafe` is the exact condition for the merge to be right).

Verify with `dafny verify dfyconfig.toml`.

## Model

| member | source | states |
|---|---|---|
| XmlRoundTrip.RoundTrip | botocore/serialize.py:523-605 | Serializing any conforming value of a well-formed shape, in a map of possibly recursive shapes, and parsing the elements back by the separate parser gives the value again, short of what the serializer drops: members from the first None on, and empty flattened lists |
| XmlRoundTrip.StructureRoundTrip | botocore/parsers.py:282-312 | The structure case: every member is found again under its own tag, whatever namespace the document was read with |
| XmlRoundTrip.ListRoundTrip | botocore/parsers.py:272-280 | The list case, flattened and nested: one element and several elements give lists of one and of several items in order |
| XmlRoundTrip.MapRoundTrip | botocore/parsers.py:248-267 | The map case: entries are paired again from their key and value elements |
| Codecs.PlainCodecIsFaithful | botocore/serialize.py:584-605 | The laws that the round trip asks of the library conversions can be met: a concrete codec, with a text for every finite double, keeps them all |
| XmlBody.BodyRoundTrip | botocore/serialize.py:515-521 | The request body of a conforming input exists and parses to what was seen of the input; it is the input itself if and only if nothing was dropped |
| XmlBody.SeenIsAll | botocore/serialize.py:534-541 | The parsed value equals the input if and only if no structure in it has a None member or an empty flattened list, at any depth |
| XmlBody.NoneHidesLaterMembers | botocore/serialize.py:534-541 | For every structure, members before and after: a None member makes the serializer leave the structure, so it writes what it would write if the None and all later members were not there |
| XmlRecursion.RepeatedAnywhere | botocore/parsers.py:282-330 | Several elements of one tag, handed to a structure whose member under that tag is of the structure's own kind: wherever in a document the parser comes to such a place, the whole document cannot be parsed at any recursion depth |
| XmlRecursion.RepeatedRecursiveElement | botocore/parsers.py:282-330 | Such elements directly under the structure, whatever they hold: the error is the recursion limit itself, if nothing else stands beside them |
| XmlRecursion.RepeatedElementsLoop | botocore/parsers.py:282-297 | The same along any chain of structures that lead from one to the next by the tag: the parser goes down the same list for ever, so it fails at every depth |
| XmlRecursion.ParsesIffClear | botocore/parsers.py:224-330 | A document with no other fault is parsed within some recursion limit if and only if the parser comes to no place from which calls stay with the same elements and return to the same shape |
| XmlRecursion.CircleNeverParses | botocore/parsers.py:224-330 | With such a place reached, in whatever document and shape map, the parse fails at every recursion limit |
| XmlRecursion.ParsingEnds | botocore/parsers.py:224-330 | Without one, parsing stays within a recursion depth that the document's height and the number of shapes give; shapes that are not reached do not matter |
| XmlRecursion.StaysIff | botocore/parsers.py:272-330 | Which calls stay with their elements: exactly a single element of a flattened list, handed on as it is, and several elements of one tag, handed to a structure's members that look for that tag |
| XmlElements.Serialize | botocore/serialize.py:523-526 | Appends to the given node, in place, exactly the specified elements as new objects, and leaves the node's earlier children alone; or raises the specified error |
| XmlElements.SerializeStructure | botocore/serialize.py:528-552 | Appends one new element with the specified attributes and children |
| XmlElements.SerializeField | botocore/serialize.py:534-552 | One dictionary entry: stops on None, raises on an unknown member, sets an attribute or appends child elements, and does nothing else |
| XmlElements.SerializeItems | botocore/serialize.py:554-563 | Appends one element per list item, in order, under the node it was given |
| XmlElements.SerializeList | botocore/serialize.py:554-563 | A list that is not flattened: one new element holding one element per item, in order |
| XmlElements.SerializeMap | botocore/serialize.py:565-582 | Appends one new element holding one entry element per pair, in order |
| XmlElements.SerializeEntry | botocore/serialize.py:572-582 | Appends one entry element holding the key element and the value element |
| XmlElements.SerializeBodyParams | botocore/serialize.py:515-521 | Returns the root's only child as a freshly built tree, or the error that was raised on the way |
| XmlParsing.BuildNameToXmlNode | botocore/parsers.py:314-330 | Groups the children by tag: the first element stays single and turns into a list, in order, when its tag repeats |
| XmlParsing.ParseShape | botocore/parsers.py:224-227 | The dispatching parser computes the specified value or error, within a bound on the recursion |
| XmlParsing.HandleStructure | botocore/parsers.py:282-312 | Collects the members whose tags occur, in the order of the shape, from the grouped children |
| XmlParsing.HandleList | botocore/parsers.py:272-280 | Parses every item, in order, stopping at the first error |
| XmlParsing.HandleMap | botocore/parsers.py:248-267 | Collects the entries, a later key replacing an earlier one |
| XmlParsing.HandleEntry | botocore/parsers.py:255-266 | Reads one entry's children in order; an unknown tag is an error, a missing one keeps the previous entry's value |
| XmlReading.ParsesAsRead | botocore/parsers.py:224-330 | What the parser makes of any document, told from the traits and the children alone: a structure has exactly the members some child goes by, from all its children of that tag; a flattened list or map is read from the tagged elements themselves and any other from their children; an entry has the last key and value up to it; scalars are their text |
| XmlReading.NamedElementsRead | botocore/parsers.py:299-312 | A flattened list whose elements have a name: its member is in the parsed dict if and only if some child has the elements' name, and its items are those children in order |
| XmlReading.TagOfMember | botocore/parsers.py:299-312 | The tag a member is looked for by, from the attributes of the reference and its shape: the elements' name for a flattened list, or else its own name, or else the member's |
| XmlBody.NamespaceOfElement | botocore/serialize.py:531-536 | The namespace an element is read back with: the one its structure's shape gives without a prefix, and the one around it for anything else |
| XmlBody.PrefixDeclared | botocore/serialize.py:531-536 | With a prefix the structure only declares its namespace, as an attribute of its own |
| XmlBody.ScalarElement | botocore/serialize.py:584-605 | A scalar becomes one element with the text of its type: true or false by what Python takes for empty, base64, the timestamp's text, or str of the value |
| XmlBody.ListElement | botocore/serialize.py:554-563 | The items of a list that is not flattened stand in one element, under the name of its elements or under member |
| XmlBody.MapElement | botocore/serialize.py:565-582 | A map is one element with one entry for each pair, the key before the value, each under its name or under key and value |
| XmlBody.ElementsTagged | botocore/serialize.py:523-605 | Whatever a value becomes stands under the name it was given, for flattened lists of flattened lists too |
| XmlBody.RootTagged | botocore/serialize.py:515-521 | The body's root stands under the name of the input shape |
| Pagination.PageIterator.Iterate | botocore/paginate.py:72-126 | The whole run: pages, resume token and error are those of the specification, for every finite chain of pages |
| Pagination.PageIterator.Request | botocore/paginate.py:79-126 | The request loop from a given start, including the error for a first page without the primary list |
| Pagination.PageIterator.TakePage | botocore/paginate.py:95-126 | One round of the loop: truncates, stops, or asks for the next page, and sets the resume token exactly when the run stops early |
| Pagination.PageIterator.SetResumeToken | botocore/paginate.py:58-66 | The token text is the page's token, followed by three underscores and the index when there is one |
| Pagination.PageIterator.ReadPage | botocore/paginate.py:79-97 | One response and its primary list: the first page of a resumed run is cut at the start index, or is an error without the list |
| Pagination.PageIterator.InjectToken | botocore/paginate.py:156-160 | Puts the next token among the arguments; a null token, and one with the text None, leaves the argument sent before as it is |
| Pagination.PageIterator.BuildFullResult | botocore/paginate.py:222-255 | Joins the pages of the run in order and hands on its token and error |
| Pagination.WithIndexInjective | botocore/paginate.py:200-206 | Token texts of different positions differ, for tokens that are not 'None', contain no separator and do not end in an underscore |
| Pagination.StartOfIndexedToken | botocore/paginate.py:257-275 | Parsing a token text with an index gives back the token and the index |
| Pagination.StartOfBareToken | botocore/paginate.py:257-275 | Parsing a token text without an index gives back the token and index 0 |
| PaginationResume.ResumeLosesNothing | botocore/paginate.py:72-126 | A run bounded by m, fresh or resumed, yields the first m items; if its token can name the place, an unbounded run from the token yields exactly the rest, so nothing is lost or repeated |
| PaginationResume.BoundedRun | botocore/paginate.py:182-206 | A bounded run yields the first m of the remaining items (or all of them) without error, and gives a token only when there are at least m |
| PaginationResume.BoundedItems | botocore/paginate.py:106-126 | The same from the middle of a run: what is still taken is the first m minus the items already yielded |
| PaginationResume.BoundedStop | botocore/paginate.py:182-206 | Where a bounded run stops: page and index are those of the first item it did not yield |
| PaginationResume.UnboundedResume | botocore/paginate.py:143-180 | An unbounded run from a token at (page, index) yields that page from the index on and all later pages, or fails on a page without the primary list |
| PaginationResume.RestAfterStop | botocore/paginate.py:182-206 | The items after the first m are exactly those from the stop position on |
| PaginationResume.ResumeTokenIsRight | botocore/paginate.py:72-126 | The token a bounded run leaves names the place where it stopped if and only if it stopped on a page boundary, or truncated with (null start token or not on its first page) and (start index 0 or on its first page) |
| PaginationResume.CanNameFromLengths | botocore/paginate.py:72-126 | That condition told before the run, from the bound, the lengths of the pages and the start alone |
| PaginationResume.FreshRunCanName | botocore/paginate.py:72-78 | A run from the very start always leaves a right token |
| PaginationResume.ResumedRunForgetsItsToken | botocore/paginate.py:75-105 | An input behind that condition: a resumed bounded run cut on its first page leaves a token that names the wrong place, because the next token is reset and the starting offset is kept |
| PaginationPages.ChainIsRequests | botocore/paginate.py:95-126 | The requests of a run, from the pages alone: a page is not the last if and only if it names a token, the more_results marker (where there is one) is true, and the token is not the one the page before named; that token is sent, unless its text is None |
| PaginationPages.RunIterates | botocore/paginate.py:72-126 | Exactly what a run yields, which token it leaves and how it fails, from the items, tokens and markers of the pages: all pages that lead on below the bound, the last one cut at the bound, a token only if it was cut or ends at the bound and leads on |
| PaginationPages.FinishedListing | botocore/paginate.py:208-216 | A page without a token, or with a false marker where there is one, is the last one requested and yielded; it leaves a token only if it was truncated |
| PaginationPages.StartOfPlainText | botocore/paginate.py:257-275 | A starting token without a separator is the token itself, or no token for the text None, and starts at index 0 |
| PaginationPages.StartOfSeparatedText | botocore/paginate.py:257-275 | With one separator the rest is the index, or a bad token if it is no number; with more of them only the first part counts |
| TrieSpec.TrieHoldsLiveRegistrations | botocore/hooks.py:375-392 | After any run of appends and removals on a fresh trie, every key lists exactly the live registrations |
| TrieSpec.SearchFindsMatching | botocore/hooks.py:394-437 | For event names with no star part, the search returns, as a multiset, exactly the live registrations whose pattern matches a prefix part by part |
| TrieOrder.SearchInOrder | botocore/hooks.py:394-437 | For event names with no star part, after any run of appends and removals: the search gives the handlers of the matching live registrations, one for each, in this and no other order: of two patterns the one with the star at the first difference, or else the longer one; within a pattern first before middle before last, each in the order of registration |
| TrieOrder.ShorterStarFirst | botocore/hooks.py:394-437 | A pattern with a star is heard before a longer one without it |
| PrefixTries.PrefixTrie.AppendItem | botocore/hooks.py:375-392 | Adds the handler to its section's end at the key, creating nodes, and changes no other key |
| PrefixTries.PrefixTrie.PrefixSearch | botocore/hooks.py:394-437 | The explicit-stack search returns the recursive order: wildcard subtree, direct subtree, then the node's own first, middle and last handlers |
| PrefixTries.PrefixTrie.RemoveItem | botocore/hooks.py:439-449 | Removes the handler's first occurrence at the key; raises ValueError for a key not in the trie and AttributeError for a node without lists, both leaving the trie as it was |
| PrefixTries.PrefixTrie.RemoveFrom | botocore/hooks.py:451-474 | The recursive removal below a node, with the node's place as its only argument about the rest |
| PrefixTries.PrefixTrie.Copy | botocore/hooks.py:476-484 | A copy is made of new nodes only and holds the same handlers at the same keys |
| PrefixTries.PrefixTrie.CopyFrom | botocore/hooks.py:486-498 | Copying a subtree gives one new node per old node, linked in the same way, with the same lists |
| PrefixTries.NodesHaveListsBelow | botocore/hooks.py:451-474 | A node exists exactly for the prefixes of keys that ever had lists: removal never prunes |
| Emitters.CallHandlers | botocore/hooks.py:201-213 | Calls the handlers in order and pairs each with its response; stops after the first response that is not None when asked to |
| Emitters.FirstNonNoneResponse | botocore/hooks.py:36-61 | The first response that is not None, or the default |
| Emitters.Emitter.RegisterSection | botocore/hooks.py:263-300 | New trie, ids and outcome are those of the specification; the cache is replaced whenever the trie changes; without counting no shared id entry is written |
| Emitters.Emitter.RegisterAgain | botocore/hooks.py:267-286 | A known id: counts one up, does nothing, or raises ValueError when the counting modes differ; the handler is not added again |
| Emitters.Emitter.Insert | botocore/hooks.py:287-300 | A new id or none: appends the handler, notes the id and replaces the cache |
| Emitters.Emitter.Unregister | botocore/hooks.py:302-334 | New trie, ids and outcome are those of the specification, with the cache replaced when the trie changes |
| Emitters.Emitter.Release | botocore/hooks.py:306-326 | Counts an id down, or forgets it and names its handler at the last count, or raises ValueError when the counting modes differ |
| Emitters.Emitter.RemoveHandler | botocore/hooks.py:327-334 | Removes the handler from the trie; a ValueError is swallowed and then the cache is kept, an AttributeError is not |
| Emitters.Emitter.Emit | botocore/hooks.py:175-213 | The responses are those of a fresh search in this emitter's own trie, whether or not the cache answered, and every list in the shared cache stays right |
| Emitters.Emitter.EmitUntilResponse | botocore/hooks.py:228-245 | The first handler to respond, in search order, with its response; without one the last handler called and None, and no handler only when nobody listens |
| EmitterSpec.StoppedExact | botocore/hooks.py:201-213 | An event that stops at the first response calls the handlers up to the first that responds, and all of them if none does |
| Emitters.Emitter.Copy | botocore/hooks.py:336-342 | The copy has its own trie and id dictionary but shares the cache and the id entries, and listens to the same events |
| EmitterRuns.Change | botocore/hooks.py:263-334 | Registering or unregistering on one of several emitter objects that share caches and id entries takes their family to its next state, entries included, keeps every cache right and changes no field of another emitter |
| EmitterRuns.EmitOn | botocore/hooks.py:175-199 | Emitting on one of them calls what it holds, changes no state and keeps every cache right |
| EmitterRuns.CopyOn | botocore/hooks.py:336-342 | A copy joins the family with the same id entries and the same cache, all caches staying right |
| EmitterRuns.Apply | botocore/hooks.py:164-342 | Any call on the objects is the call on the family: next state and reply, counted ids and copies included |
| EmitterRuns.Run | botocore/hooks.py:164-342 | Every run of register, unregister, emit and copy on the objects, without exception, ends in the state of the family's run and gives its replies, whatever the caches answered |
| EmitterFamilies.OwnView | botocore/hooks.py:263-334 | In a family whose members share id entries, the emitter that is called holds afterwards what it would hold alone |
| EmitterFamilies.OtherChangesIffShared | botocore/hooks.py:267-342 | A call changes what another emitter holds if and only if it counts in an id entry that the other emitter holds too |
| EmitterFamilies.StepAloneUnlessShared | botocore/hooks.py:263-342 | One call leaves all emitters as if they shared nothing if and only if it does not count in an entry that another emitter holds |
| EmitterFamilies.IndependentRunsAlone | botocore/hooks.py:263-342 | Runs without copies or without counted ids are runs of emitters that share nothing |
| SharedCounts.SharedCountKeepsHandler | botocore/hooks.py:306-342 | With a counted id, registering through a copy also counts the original up: one unregistering leaves the handler in the original |
| SharedCounts.CopiedCountsWouldRemove | botocore/hooks.py:306-342 | The same calls on emitters that share nothing would have removed the handler |
| UniqueIds.HeldWhileBalanced | botocore/hooks.py:263-334 | For runs on one emitter that use each id for one event, handler and counting mode, a handler is in the trie exactly once if and only if its balance is positive, and no ValueError is raised |
| UniqueIds.ModesMustAgree | botocore/hooks.py:267-326 | While an id is held, registering or unregistering it in the other counting mode raises ValueError and changes nothing; once it is not held, unregistering it does nothing |
| LiveHandlers.EmitReachesLiveRegistrations | botocore/hooks.py:175-213 | At any point of any run over copies that share their id entries, an emit on any of them reaches exactly the registrations that are live by its own history and match the event, in the order of their patterns, sections and registration |
| QueryKeys.NoKeyTwice | botocore/serialize.py:168-193 | Query and EC2 serialization of an unbounded nested value writes no key twice, when sibling names are distinct and dot-free and none at the top is Action or Version |
| QueryKeys.SerKeys | botocore/serialize.py:183-256 | All keys written for one value are distinct and lie under that value's own name, or the replaced last part of a flattened list |
| QueryKeys.FieldsKeys | botocore/serialize.py:195-202 | The keys written for different members of a structure are apart |
| QueryCollisions.FlattenedListInListCollides | botocore/serialize.py:204-220 | For a list of flattened lists of scalars whose member is renamed, no key is written twice if and only if at most one of the inner lists has elements: any two others meet on their first element |
| QueryCollisions.NestedDistinctIff | botocore/serialize.py:204-220 | For any element shape: no key is written twice if and only if no two of the inner lists have elements at one number that share a key |
| QueryCollisions.ItemsDistinctIff | botocore/serialize.py:204-220 | Any list writes no key twice if and only if no element does and no two elements share one |
| QueryCollisions.FieldsDistinctIff | botocore/serialize.py:195-202 | Any structure writes no key twice if and only if no member does and no two members share one |
| QueryPlaces.PlacesDistinctIff | botocore/serialize.py:195-240 | Any structure with dot-free names, of any depth, writes no key twice if and only if no two of its values come to one place, places being followed down by name and number, with the replaced ends of flattened lists |
| QueryPlaces.MembersMeetIff | botocore/serialize.py:195-240 | Two members, whatever they hold, share a key if and only if they come to a common place, so heads that meet need not collide |
| QueryPlaces.KeysAtPlaces | botocore/serialize.py:189-240 | The keys written are, in order, the dotted names of those places, built from the words of the traits: splitting and joining the prefixes loses nothing |
| QueryKeys.NameIsWord | botocore/serialize.py:149-152 | The word a member, key or value goes by: for Query its location name or else the default; for EC2 its query name, or else its location name with the first letter in upper case, or else the default, and an IndexError for an empty location name |
| QueryKeys.WordIsCalled | botocore/serialize.py:267-278 | The same told from the attributes of the reference and of the shape it leads to, the reference's own coming first |
| QueryRequest.RequestIs | botocore/serialize.py:168-284 | A request that goes through assigns Action, Version, and then every leaf of the input under the dotted words that lead to it: names, numbers, member and entry, and the replaced ends of flattened lists; a boolean as true or false, a blob as base64, a timestamp as its text, anything else as it is |
| QueryCollisions.SiblingsDistinctIff | botocore/serialize.py:195-220 | Read off the members alone, for scalars and lists of scalars, whatever names other members have: no key is written twice if and only if no two members are written at the same place |
| QueryCollisions.ScalarSiblingsDistinctIff | botocore/serialize.py:195-202 | Scalar members, whatever dots their names hold, write no key twice if and only if their names differ |
| QueryRequest.EveryLeafSurvives | botocore/serialize.py:168-181 | The request dictionary has as many entries as there are leaves, and every leaf of the value stands under the key it was written to |
| QueryRequest.LeavesWritten | botocore/serialize.py:183-256 | A complete serialization writes the value's leaves, each once and in order |
| Assignments.AllSurviveIffDistinct | botocore/serialize.py:183-256 | Of a run of assignments to a dictionary all values survive if and only if no key is assigned twice |
| QueryParameters.SerializeToRequest | botocore/serialize.py:168-181 | The filled dictionary is Action, Version and the specified assignments, as far as the run gets before an error |
| QueryParameters.Serialize | botocore/serialize.py:183-193 | Performs exactly the specified assignments on the dictionary it was handed, in place, also when it ends in an error |
| QueryParameters.SerializeStructure | botocore/serialize.py:195-202 | The same for a structure, member by member in the order of the value |
| QueryParameters.SerializeField | botocore/serialize.py:195-202 | The same for one member; an unknown one is a KeyError |
| QueryParameters.SerializeList | botocore/serialize.py:204-220 | The same for a list: an empty list is one empty assignment for Query, and the prefix's last part is replaced for a named flattened list |
| QueryParameters.SerializeMap | botocore/serialize.py:222-236 | The same for a map, through its numbered key and value templates |
| QueryParameters.SerializeEntry | botocore/serialize.py:231-236 | The same for one entry of a map |
| Conformance.ReportsExact | botocore/validate.py:143-257 | A report is in the validator's errors if and only if it is a violation of the shape, at that place of the value, by a separate recursive definition (one way only if the validator itself crashes) |
| Conformance.NoReportsIffConforms | botocore/validate.py:90-92 | The validator finds no error, and does not crash, if and only if the value conforms to its shape at every depth |
| Conformance.LocalExact | botocore/validate.py:165-257 | The reports made at one place are exactly its own violations |
| Conformance.ChildrenExact | botocore/validate.py:180-229 | The validator goes on to exactly the known members, items, keys and values, under the names their reports carry |
| Conformance.OwnReportsFirst | botocore/validate.py:143-257 | The reports about a value come before those about what it contains, which come in its order |
| ParamValidators.Validate | botocore/validate.py:143-159 | A new error list that holds the specified reports in order |
| ParamValidators.ValidateValue | botocore/validate.py:161-163 | Appends the reports of the value to the shared list, in order |
| ParamValidators.ValidateStructure | botocore/validate.py:165-183 | The same for a structure: missing members, then unknown members, then the known ones |
| ParamValidators.ReportMissing | botocore/validate.py:167-171 | One report for every required member that is not there |
| ParamValidators.ReportUnknown | botocore/validate.py:172-183 | One report for every unknown member, and the known ones to go on with |
| ParamValidators.ValidateAll | botocore/validate.py:161-210 | Appends the reports of several places in order, as far as the validator gets |
| ParamValidators.ValidateList | botocore/validate.py:198-203 | The same for a list: its length, then its items |
| ParamValidators.ValidateItems | botocore/validate.py:198-203 | The loop over the items of a list, as far as the validator gets |
| ParamValidators.ValidateMap | botocore/validate.py:205-211 | The same for a map: key and value of every entry |
| ParamValidators.ValidateEntry | botocore/validate.py:205-211 | The same for one entry |
| ParamValidators.ValidateScalar | botocore/validate.py:186-257 | Appends the type and range reports of a scalar |
| ParamValidators.ValidateNumber | botocore/validate.py:214-240 | Appends the type and range reports of a number |
| ParamValidators.RangeCheck | botocore/validate.py:68-83 | Appends the report if and only if the value lies below the minimum or above the maximum |
| Totality.XmlTotal | botocore/serialize.py:523-605 | On a conforming value the XML serializer raises nothing, but for a file-like blob's TypeError; in particular it never looks up an unknown member |
| Totality.QueryTotal | botocore/serialize.py:183-284 | The same for the query and EC2 serializers |
| Totality.JsonTotal | botocore/serialize.py:308-354 | The same for the JSON serializer |
| JsonSerializer.SerializesIff | botocore/serialize.py:314-354 | What is handed to json.dumps: the same dictionaries under the same keys and the same lists in order, with timestamps as seconds and blobs as base64, if and only if every key is a member and every scalar can be converted |
| ValidatedRequests.SerializeToRequest | botocore/validate.py:258-273 | The decorator refuses exactly the values that do not conform, with the full list of reports, and a value it lets through is serialized without a lookup error; without an input shape nothing is validated and the request is Action and Version alone |
| ShapeNames.BuildRoundTrip | botocore/model.py:525-601 | For every tree of shapes with no explicit shape names, resolving the root reference in the built map rebuilds the tree, and the map has one entry per node |
| ShapeNames.BuildNames | botocore/model.py:597-601 | All names that building enters are distinct and none was entered before |
| ShapeSharing.RebuildsIffNamesAgree | botocore/model.py:525-601 | With any explicit names: every name that building gives out rebuilds the trees it was given to if and only if nodes of one name are equal trees, names aside; and then the root is rebuilt |
| ShapeSharing.NamedListDisagrees | botocore/model.py:567-572 | Any list stored under an explicit name of its own breaks that condition, because its member is given the same name |
| ShapeSharing.ShadowedNameDoesNoHarm | botocore/model.py:543-601 | The root alone can be rebuilt although names disagree: a second node takes over a name, and nothing that the root reaches refers to it, because its parent was taken over as well |
| ShapeNames.RebuildsOne | botocore/model.py:423-456 | A name rebuilds at most one tree |
| ShapeNames.NamedListIsLost | botocore/model.py:567-572 | A list with an explicit name gives its member the list's own name, and no tree at all is rebuilt from that name |
| ShapeNames.NameForInjective | botocore/model.py:614-643 | Generated names of different types or different counts differ |
| ShapeNames.OneEntryEach | botocore/model.py:543-601 | Building enters exactly one shape for every node of the tree |
| ShapeNames.EndsAtUnknown | botocore/model.py:543-554 | A build ends at the first type that is none of the known ones, in the order of the members and of a map's key before its value, and only there |
| ShapeBuilder.HeldRebuilds | botocore/model.py:423-456 | Whatever else a shape map holds, if it holds the entries of a tree then resolving the root rebuilds the tree |
| StructureBuilders.DenormalizedStructureBuilder.BuildModel | botocore/model.py:525-541 | Fills a new shape map with the specified entries, an entry written later replacing an earlier one, or raises; a builder that was given a name has no name to build with |
| StructureBuilders.DenormalizedStructureBuilder.BuildInto | botocore/model.py:543-554 | Writes the entries of a tree into the dictionary it was handed and moves the name counters on |
| StructureBuilders.DenormalizedStructureBuilder.BuildStructure | botocore/model.py:556-565 | The same for the members of a structure, with one reference for each |
| StructureBuilders.DenormalizedStructureBuilder.BuildMap | botocore/model.py:574-582 | The same for key and value of a map, the key first |
| StructureBuilders.DenormalizedStructureBuilder.GetShapeName | botocore/model.py:597-601 | The explicit name if there is one, without touching the counters, and a generated one otherwise |
| StructureBuilders.ShapeNameGenerator.NewShapeName | botocore/model.py:614-643 | Counts the type up by one and leaves the other counters alone |
| RetryLoop.SendRequest | botocore/endpoint.py:198-219 | The send loop ends within the limit; every attempt but the last was judged retryable; the outcome is the last attempt's response or exception, or the error a checker raised on it |
| RetryLoop.NeedsRetry | botocore/endpoint.py:262-279 | The verdict of the handlers on one attempt, the first that answers deciding |
| RetryLoop.RetryHandlersStop | botocore/retryhandler.py:158-187 | Handlers made from checkers with at most the given number of attempts do stop the loop |
| RetryLoop.GeometricTotal | botocore/retryhandler.py:39-58 | The total sleep times (g-1) is base times (g^(n-1)-1) |
| RetryLoop.GeometricSleep | botocore/retryhandler.py:39-58 | The total sleep over n attempts is the closed geometric sum, also for growth factor 1 |
| RetryHandlers.CreateChecker | botocore/retryhandler.py:92-120 | The checker built from a configuration is the specified one: its checkers, its limit and the exceptions it catches, or the configuration error |
| RetryHandlers.GatherCheckers | botocore/retryhandler.py:92-155 | Collects checkers and retryable exceptions from the policies in order, stopping at the first bad one |
| RetryHandlers.RunCheckers | botocore/retryhandler.py:306-316 | The first checker that says yes or raises decides |
| RetryHandlers.DecideExact | botocore/retryhandler.py:233-273 | An attempt is retried if and only if the limit is not reached and a checker says yes or raises an exception that is caught; at the limit nothing is retried and nothing is swallowed |
| RetryHandlers.OnFailure | botocore/retryhandler.py:341-355 | A caught exception is raised on if and only if an exception raiser is among the checkers |
| RetryHandlers.NamedErrorRetriedUnlessAlone | botocore/retryhandler.py:103-120 | An exception the configuration names is retried below the limit, unless its policy is the only one: then it is raised, because a single checker loses its retryable exceptions |
| RetryHandlers.ChecksumRetriedUnlessAlone | botocore/retryhandler.py:103-120 | The same for a response with a corrupted body: the checksum error is retried below the limit with more than one checker, and raised with a lone one and at the limit |
| RetryHandlers.OnCorruption | botocore/retryhandler.py:319-338 | On a response the checksum error is raised if and only if the first checker that does not decline reads a number from its header that is not the body's checksum |
| RetryPolicies.DecidedByPolicies | botocore/retryhandler.py:92-355 | The whole decision on any attempt, told from the policies of the configuration: the first policy that has something to say decides; a status and error code ask for a retry below the limit, a wrong checksum or a watched connection error is retried below the limit unless its policy is alone, and raised otherwise |
| RetryPolicies.RetriedIffWanted | botocore/retryhandler.py:276-303 | Without checksum policies a response is retried if and only if the limit is not reached and a default policy or one of the operation has its status, and its error code if it names one |
| RetryPolicies.ConfigurationFails | botocore/retryhandler.py:92-155 | A configuration gives no checker if and only if some policy has an error code without a status, an unknown socket error, or a response without a condition; the first such policy says which error |
| RetryPolicies.SleepsAsDecided | botocore/retryhandler.py:39-58 | A lone retry handler sleeps base times growth to the attempts before, after exactly the attempts that are decided to be retried, and raises what is decided to be raised |
| RetryPolicies.SleepsAsDrawn | botocore/retryhandler.py:44-58 | A random base is drawn anew for every attempt |
| RetryConfigBuilds.BuildRetryConfig | botocore/translate.py:494-504 | On freshly loaded dictionaries, updated in place, for every order of the keys and every recursion limit: without a dictionary for the service or a definition for every name it fails; otherwise the merge runs on the two resolved configurations as specified. Where the sharing is safe and the limit deep enough, the new dictionary then shows the defaults with the service's settings laid over them; where no overridden definition is referenced from a second place, it succeeds if and only if no setting meets a scalar |
| RetryConfigBuilds.BuiltSays | botocore/translate.py:494-524 | At every path of keys the built configuration holds the service's value if there is one and the default otherwise, both read through references in the loaded JSON |
| RetryConfigBuilds.BuiltHasNoReferences | botocore/translate.py:507-524 | No reference is left when the definitions in use have none |
| RetryConfigBuilds.ResolvedHasNone | botocore/translate.py:507-524 | Resolving leaves no reference if and only if no definition in use is, or holds, a reference: definitions are not resolved in turn |
| RetryConfigBuilds.ResolvedKinds | botocore/translate.py:507-524 | What is found along a path after resolving is what is found before by reading definitions where references stand |
| RetryConfigBuilds.MergedKinds | botocore/utils.py:198-213 | What is found along a path after merging, for every path, scalar or dictionary, including paths cut off by a scalar |
| RetryConfigBuilds.OnceIsApart | botocore/translate.py:507-524 | If no definition overridden by the service is referenced from a second place, then no dictionary the merge writes into is seen twice |
| RetryConfigBuilds.UntangledIsApart | botocore/translate.py:494-504 | The same between the defaults and the service's own settings |
| RetryConfigBuilds.DefinitionIsAltered | botocore/translate.py:519-522 | An overridden definition no longer is what was loaded, so only freshly loaded models are safe |
| RetryConfigs.OneView | botocore/utils.py:198-213 | A heap shows one tree for each dictionary |
| RetryConfigSharing.MergedShowsIff | botocore/utils.py:198-213 | For defaults and settings that one heap shows, with dictionaries shared at any depth and between the two: the merged view can be shown by a heap if and only if a dictionary that meets different settings merges to one view with all of them, and none that the merge really changes stands in a place it leaves alone |
| RetryConfigSharing.Show | botocore/utils.py:198-213 | A view whose dictionaries agree can be written down: afterwards the heap shows it |
| RetryConfigSharing.ShownAgree | botocore/utils.py:198-213 | Views shown by one heap agree on every dictionary they share |
| RetryConfigBuilds.SharedDefinitionLeaks | botocore/translate.py:519-522 | The simplest case where no heap at all holds the merged configuration: two references to one definition side by side and an override of one |
| RetryConfigs.ResolveReferences | botocore/translate.py:507-524 | Replaces the references in place, at every depth but not inside definitions, writing only into the configuration's own dictionaries; succeeds if and only if every reference names a definition |
| RetryConfigs.ResolveKey | botocore/translate.py:518-524 | One entry: the definition's own dictionary takes the place of a reference, other dictionaries are entered, the other entries stay as they were |
| MergeRuns.MergeDicts | botocore/utils.py:198-213 | Merges in place, for any dictionaries, shared in any way, any order of their keys and any recursion limit: what all dictionaries hold afterwards is that of the specified run, and so are the failures, on a scalar in the way of entries and on a dictionary that grows while it is gone through |
| MergeRuns.MergeEach | botocore/utils.py:204-213 | The loop over the keys of the settings, which fails when they are no longer the keys it began with |
| MergeRuns.MergeKey | botocore/utils.py:204-213 | One entry: scalars and new keys are assigned, dictionaries that meet an old value are merged into it |
| MergesScalar.RightIffSafe | botocore/utils.py:198-213 | For configurations that one heap shows, with dictionaries shared at any depth and between the two: the merge succeeds and leaves the merged configuration, whatever order each dictionary gives its keys in, if and only if the sharing is safe. Safe means that no dictionary with entries meets a scalar, that the merged view can be shown, that a dictionary which the merge really changes and also reads as settings says nothing there that would change the result (but for the key whose round changes it, if it gets no new keys), and that settings which meet a scalar get no keys elsewhere unless a scalar has taken their own place by then |
| MergesRight.SafeMerge | botocore/utils.py:198-213 | One half: every run then succeeds, leaves the merged configuration and writes into nothing but the dictionaries of the defaults that meet one of the settings |
| MergesScalar.UnsafeOrder | botocore/utils.py:198-213 | The other half: otherwise there is an order for the keys of each dictionary with which the merge fails or leaves another configuration, at every recursion limit |
| MergesRight.UnreadMerge | botocore/utils.py:198-213 | Where the settings share nothing with what is changed, the merge fails, in every order, exactly if a dictionary with entries meets a scalar |
| MergesScalar.HarmlessYetWrong | botocore/utils.py:204-213 | An input whose merged view could be shown and that the loops miss: a definition that is changed under one key and read as settings under another |
| MergeSafety.ApartIsClean | botocore/utils.py:198-213 | Where no dictionary that is written into is seen twice, the sharing is safe but for scalars in the way |
| MergeSafety.NotInside | botocore/utils.py:198-213 | Where the merged view can be shown, no dictionary that meets settings is a part of these settings |
| TreeHash.CalculateTreeHash | botocore/utils.py:378-408 | For every body and every hash function the bottom-up pairing loop with odd carry gives the top-down tree that splits at the largest power of two below the number of chunks (section 2.1 of RFC 6962) |
| TreeHash.Reduce | botocore/utils.py:396-407 | Reducing n hashes gives the top-down root with exactly n-1 combining hashes |
| TreeHash.PairLevel | botocore/utils.py:396-406 | One level of the loop, with half as many combining hashes as there are hashes, rounded down |
| TreeHash.PairUpKeepsTopDown | botocore/utils.py:396-407 | Pairing one level does not change the top-down root |
| TreeHash.PairUpSplits | botocore/utils.py:411-425 | Pairing commutes with splitting at an even place |
| TreeHash.SplitPointUnique | botocore/utils.py:378-395 | The split point is the only power of two below n that is at least half of n |
| TreeHash.ChunksPartitionTheBody | botocore/utils.py:386-394 | The chunks are the body cut into full pieces with a shorter, non-empty last one |
| DotSegments.RemoveDotSegments | botocore/utils.py:51-89 | The loop over the URL ends and computes the specified path |
| DotSegments.NormalizeUrlPath | botocore/utils.py:45-48 | The root path for an empty one and the normal form otherwise |
| DotSegments.NormalizeIsNormal | botocore/utils.py:51-89 | No result has two slashes in a row or a segment after the first that starts with a dot |
| DotSegments.FixedPointsAreTheNormalPaths | botocore/utils.py:51-89 | A path is left alone if and only if it is normal |
| DotSegments.NormalizeIdempotent | botocore/utils.py:51-89 | Normalizing twice is normalizing once, on every string |
| DotSegments.NormalizeIsRfc | botocore/utils.py:51-89 | The result is that of section 5.2.4 of RFC 3986 when dot-led segments are '.' or '..' and no slash is doubled |
| DotSegments.NormalizeIsRfcOnExpanded | botocore/utils.py:51-89 | On every string the result is that of section 5.2.4 of RFC 3986 for the string with dot-led segments split and doubled slashes merged |
| DotSegmentsExact.NormalizeIsRfcIff | botocore/utils.py:51-89 | For every string: the result is that of section 5.2.4 of RFC 3986 if and only if the standard keeps no segment that is empty or led by dots, but for a final empty one, and the code drops no other segment by their dots |
| DotSegmentsExact.KeptDotsDiffer | botocore/utils.py:51-89 | A doubled slash or a dot-led name anywhere in the standard's answer is a difference |
| DotSegmentsExact.DotLedNamesDiffer | botocore/utils.py:51-89 | Every rooted path that ends in a name led by a dot, other than '.' and '..', is answered differently |
| DotSegmentsExact.RepeatedSlashesDiffer | botocore/utils.py:51-89 | Every rooted path with a doubled slash before its last name is answered differently |
| SkeletonRuns.GenerateSkeleton | botocore/utils.py:476-487 | For every shape map and every recursion limit: the specified skeleton, AssertionError or RecursionError |
| SkeletonRuns.Generate | botocore/utils.py:489-507 | The recursive generator on the shared stack: the specified result, and the stack as it was before, also after an error |
| SkeletonRuns.GenerateStructure | botocore/utils.py:509-516 | The same over the members of a structure |
| SkeletonRuns.GroundedEnds | botocore/utils.py:476-531 | If the shapes that can be reached have no cycle of lists and maps, the generator ends within a depth given by their number and longest chain, with the result of the unlimited one, whatever cycles other shapes have |
| SkeletonRuns.DeepEnough | botocore/utils.py:509-516 | The depth needed below a given stack: room for the structures that can still open and the chains between them |
| SkeletonRuns.OnlyReachable | botocore/utils.py:489-531 | Shapes that cannot be reached do not matter to the result |
| SkeletonRuns.RunFits | botocore/utils.py:489-531 | Whatever the recursion limit, a skeleton that is made is the sample that fits: every member in order, nothing of a structure that is already open, one item of a list, one value under KeyName, and the placeholders of the scalar types |
| SkeletonReaches.SkeletonIffClear | botocore/utils.py:476-531 | For every shape and shape map: some recursion limit gives a skeleton, and then every higher one does, if and only if no map whose keys are not strings and no cycle of lists and maps is reached through members, list members and map values |
| SkeletonReaches.CycleReachedIff | botocore/utils.py:509-531 | With string keys only, the generator meets every recursion limit if and only if it reaches such a cycle, from whatever structure it starts |
| SkeletonReaches.WayFails | botocore/utils.py:509-516 | Nothing on a way to such a shape gets a skeleton, below any stack that holds nothing of the way: the structures on it are not cut off as repeated |
| Skeletons.GroundedIffNoCycle | botocore/utils.py:509-531 | A distance to the next structure exists for every shape if and only if no reference cycle runs through lists and maps alone |
| Skeletons.CycleNeverEnds | botocore/utils.py:518-531 | The chain of shapes from such a cycle reaches no structure or scalar, however far it is followed |
| Skeletons.GenDepth | botocore/utils.py:509-516 | A skeleton is no deeper than the unseen structures and the distances between them allow: no structure is expanded twice on one path |
| Skeletons.GenFits | botocore/utils.py:489-531 | Without a limit the generator makes a skeleton if and only if it is that sample |
| Skeletons.StringKeysSucceed | botocore/utils.py:525-531 | The generator fails only on maps whose keys are not strings |
| RequoteSettling.RequoteSettles | botocore/vendored/requests/utils.py:417-434 | For every ASCII URI, from the parts between its percent signs: requoting twice is requoting once if and only if some escape is malformed, or behind no percent sign with fewer than two characters of its own do decoded characters close up to an escape; the result is always legal |
| RequoteMeaning.SettledIffQuiet | botocore/vendored/requests/utils.py:417-434 | The same as a statement on the unquoted text: settled if and only if an escape was malformed or nothing in the text is left to unquote |
| RequoteSettling.RequoteDecodesIff | botocore/vendored/requests/utils.py:417-434 | For every ASCII URI: if an escape is malformed the result stands for the URI's own text; otherwise the decoded meaning is kept if and only if behind no percent sign with fewer than two characters of its own do decoded characters close up to two hex digits |
| RequoteSettling.ShortEscapeLosesMeaning | botocore/vendored/requests/utils.py:395-414 | The family of URIs like '%%34%31', for all hex digits: what stood for three characters stands for one after requoting |
| RequoteMeaning.RequoteKeepsMeaning | botocore/vendored/requests/utils.py:417-434 | On an ASCII URI where every percent sign starts a hexadecimal triplet, requoting keeps the percent-decoded meaning (section 6.2.2.2 of RFC 3986), is idempotent and leaves no escaped unreserved character |
| RequoteMeaning.UnquoteKeepsMeaning | botocore/vendored/requests/utils.py:395-414 | Decoding only the unreserved characters keeps the decoded meaning and leaves none of them escaped |
| RequoteMeaning.QuoteKeepsMeaning | botocore/vendored/requests/utils.py:424-434 | Quoting with the percent sign safe keeps the decoded meaning, and leaves something to unquote if and only if there was something |
| RequoteMeaning.FixedPoints | botocore/vendored/requests/utils.py:417-434 | A URI is left alone if and only if all its characters are legal and no unreserved one is escaped |
| RequoteSettling.ShortEscapeUnsettled | botocore/vendored/requests/utils.py:395-414 | The family behind it: two escapes that decode to hex digits right behind a lone percent sign, as in '%%34%31', are an escape after the first round and gone after the second |
| Requote.UnquoteUnreserved | botocore/vendored/requests/utils.py:395-414 | The loop over the parts between percent signs computes the specified URI, or fails on a bad escape |
| Requote.RequoteUriRun | botocore/vendored/requests/utils.py:417-434 | Unquotes and quotes again, or, after a bad escape, quotes the original with the percent sign not safe |
| Requote.SplitJoins | botocore/vendored/requests/utils.py:402-414 | Splitting at percent signs loses nothing |
| RequoteCharacters.QuotedByCharacter | botocore/vendored/requests/utils.py:423-434 | Quoting takes every character on its own: the reserved and unreserved characters of RFC 3986, written out, stay as they are, and any other becomes its escape with upper-case digits |
| RequoteCharacters.UnquotedByPart | botocore/vendored/requests/utils.py:395-414 | Unquoting fails if and only if two letters or digits that are not both hexadecimal follow a percent sign; otherwise exactly the escapes of unreserved characters, written out, are undone |
| RequoteCharacters.LegalStays | botocore/vendored/requests/utils.py:417-434 | A URI of reserved and unreserved characters is left alone |
| IterLines.Lines | botocore/vendored/requests/models.py:713-734 | The loop with its pending rest yields the lines of the content as it was seen through the chunks |
| IterLines.LinesOfContent | botocore/vendored/requests/models.py:713-734 | For every chunking there are as many extra lines as chunk borders that cut a CR LF pair; the lines are those of the content if and only if there is none |
| IterLines.LinesWithoutReturns | botocore/vendored/requests/models.py:713-734 | Content without carriage returns is split into its own lines by every chunking |
| IterLines.CutsAddLines | botocore/vendored/requests/models.py:713-734 | The same with further content to come |
| EscMachines.IndexInTable | botocore/vendored/requests/packages/chardet/codingstatemachine.py:42-55 | The index into the packed state table is in range for every machine, state below its number of states and byte |
| EscMachines.Run | botocore/vendored/requests/packages/chardet/escsm.py:28-240 | On every byte string each machine only ever is in a state its table provides for |
| EscMachines.VerdictStays | botocore/vendored/requests/packages/chardet/escsm.py:117-240 | Once a machine has accepted or failed, no further byte changes its state |
| EscLanguages.RecognizesKR | botocore/vendored/requests/packages/chardet/escsm.py:191-240 | The ISO-2022-KR machine accepts if and only if the input starts with plain text and then ESC $ ) C |
| EscLanguages.RecognizesJP | botocore/vendored/requests/packages/chardet/escsm.py:136-189 | The ISO-2022-JP machine accepts if and only if the input starts with plain text and then one of its six escape sequences |
| EscLanguages.NeverCN | botocore/vendored/requests/packages/chardet/escsm.py:82-134 | The ISO-2022-CN machine accepts no input at all |
| EscLanguages.RecognizesHZ | botocore/vendored/requests/packages/chardet/escsm.py:30-79 | The HZ machine accepts if and only if the input starts with plain text in which tildes are doubled, an opening ~{, pairs of bytes, and a closing ~} |
| EscProbers.EscCharSetProber.FeedBytes | botocore/vendored/requests/packages/chardet/escprober.py:66-86 | Feeding a buffer changes the machines, the active count, the state and the detected charset as specified |
| EscProbers.EscCharSetProber.FeedByte | botocore/vendored/requests/packages/chardet/escprober.py:67-84 | The same for one byte and all machines |
| EscProbers.EscCharSetProber.FeedMachine | botocore/vendored/requests/packages/chardet/escprober.py:70-84 | The same for one machine: it is switched off and counted out on an error, and it decides the charset on acceptance |
| EscProbers.EscCharSetProber.Reset | botocore/vendored/requests/packages/chardet/escprober.py:47-55 | Whatever was fed before, the prober starts afresh with all machines active |
| EscProbers.CodingStateMachine.NextState | botocore/vendored/requests/packages/chardet/codingstatemachine.py:42-55 | Steps the state by the table and returns it |
| EscProbers.FeedChunks | botocore/vendored/requests/packages/chardet/escprober.py:66-86 | Feeding two chunks until there is a verdict is feeding them at once |
| EscProbers.FeedCounts | botocore/vendored/requests/packages/chardet/escprober.py:70-77 | The active count is always the number of active machines |
| EscProbers.FeedVerdict | botocore/vendored/requests/packages/chardet/escprober.py:66-86 | After a reset the prober has found a charset if and only if some machine accepts the bytes, and has given up if and only if all have failed; the charset is that of the first to accept |
| EscProbers.FoundCharsets | botocore/vendored/requests/packages/chardet/escprober.py:66-86 | In terms of the bytes: which starts of the input lead to which charset |

## Left out

- XmlRoundTrip.RoundTrip: works on element trees with one text per element, so it does not model XML text, white space, illegal characters or comments; members bound to headers, the URI or the payload, and payload streams, are not part of it.
- PaginationResume.ResumeLosesNothing: covers one input token and the primary result key; on a resumed page boundary the secondary result keys lose data, and non-aggregate keys are not modelled.
- Pagination.PageIterator.Iterate: one complete iteration over a finite chain of pages; a generator that is dropped half way and endless chains are not modelled.
- RequoteMeaning.RequoteKeepsMeaning: ASCII URIs only; encoding of other characters is not modelled.
- IterLines.LinesOfContent: byte content without a delimiter, where only LF, CR and CR LF end lines; the further line ends of decoded text and the delimiter variant are not modelled.
- Codecs.PlainCodecIsFaithful: floats are finite doubles; NaN, the infinities and the sign of zero are not modelled.
- XmlElements.Serialize and QueryParameters.Serialize: a list shape that is given a string or a dictionary is a TypeError, where the source iterates over its characters or keys; such values do not conform.
- ValidatedRequests.SerializeToRequest: the decorator stands in front of the query serializers only; the others behind it are modelled on their own.
- RetryConfigBuilds.BuildRetryConfig: the endpoint prefix is not `__default__`, and a failure is one outcome instead of KeyError, TypeError, AttributeError, RuntimeError or the recursion limit.
- MergesScalar.RightIffSafe: a dictionary gives the same keys in the same order each time, in any order at all; which orders the hashing of an interpreter comes to is not modelled.
- UniqueIds.HeldWhileBalanced: each id keeps one event, handler and counting mode and its handler is not registered otherwise; `EmitterRuns.Run` and `LiveHandlers.EmitReachesLiveRegistrations` cover the other runs.
- EscMachines.Run: class tables are written as functions of the byte; the byte position and character length fields of a machine and get_confidence are not modelled.
- Totality.JsonTotal: the JSON serializer is modelled on values, so its in-place filling of dictionaries and the JSON text are not captured.
- Conformance.ReportsExact: the wording of the reports, NaN and decimals are not modelled.
- RetryLoop.SendRequest: sleeping, resetting streams and re-creating the request are not modelled, nor a retry configuration without a default section.
- QueryPlaces.PlacesDistinctIff: names are dot-free and not empty; `QueryCollisions.ScalarSiblingsDistinctIff` covers scalars under any names.
- QueryKeys.NoKeyTwice: names with braces, which the templates of map entries would read as fields, are not covered.
- StructureBuilders.DenormalizedStructureBuilder.BuildModel: documentation and enum lists are carried along unread, and a denormalized model with missing entries is not modelled.
- Emitters.Emitter.Emit: handlers are opaque values that do not register or unregister while they are called; the checks that a handler is callable and takes keyword arguments are not modelled.
- Emitters.Emitter.Unregister: unregistering with neither a handler nor an id is not modelled.
- XmlParsing.ParseShape: int() is modelled for an optional sign and ASCII digits only.
- Waiters, loaders, sessions, credentials, regions, signing, response streams and cookies: file and network plumbing, or short loops with easier properties.
- Sockets, TLS, proxies and HTTP sending: the service is an arbitrary function.
- The frequency tables and other probers of chardet: data with thin code around it.
- The regression, mail and benchmark scripts at the top of the repository: subprocesses and remote calls.
