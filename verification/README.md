# A verified model of the MongoDB PHP driver's core

The C extension of the MongoDB PHP driver (ext-mongodb) converts between BSON and
PHP values, keeps registries of libmongoc clients across requests and forks, and
wraps libmongoc's cursors, monitoring events, URI options and bulk writes. This
project models these parts in Dafny 4.11 and proves what they promise. Check it
with `dafny verify dfyconfig.toml`.

## The codec

`Values` has the two worlds: BSON trees, and PHP values. A document is a sequence
of fields; a PHP hash table is a sequence of buckets, whose string keys have been
filed the way PHP files them, "12" becoming the integer key 12 (`Keys`).

Decoding is a recursive function, `Decoder.Decode`, that passes the path of each
node down and picks the node's PHP type from the type map. The driver does it with
visitors that share one mutable, reference-counted path (`FieldPaths.FieldPath`);
these visitors are methods, proved to compute `Decode`, to leave the path as it was,
and to name the path in their error.

Encoding starts from a graph of hash tables that can be shared and can contain
themselves. The driver marks the tables it is inside of, and goes on after an error
with the exception pending. `Encoder.GraphEncoder` is this encoder, with its marks
and its path as state. Its meaning is a function of the graph; `EncoderFaults` says
exactly when it fails and with which errors, `EncoderTrees` reduces it on acyclic
graphs to the encoding of a tree, and `EncoderIds` treats the generated `_id`.

`RoundTrip` proves that decoding and encoding yields the canonical form of a
document: for the default type map always, for documents as PHP arrays exactly when
no embedded document looks like a list, and for other native types accordingly. Canonical means: array keys renumbered, 64-bit
integers narrowed where 32 bits suffice, regular expression options sorted, and the
last of several fields with the same key in the first one's place. `Persistables`
proves the other direction for objects of Persistable classes, and where it ends.

## The client registry

`Registry` has one function per step of a process on the persistent registry, the
request-scoped registries and the Manager objects; `RegistryProcess` has the same
steps as the driver performs them, in place and with loops. `RegistryRuns` proves an
invariant of every run of any number of processes that construct, use, free and
fork, and from it who destroys and resets a client, how often, and in which order;
`RegistryOrigins` traces every entry and Manager back to a construction, and
`RegistryConservation` follows every client to its destruction.

## Around them

`Cursors`, `Apm`, `UriOptions` and `BulkWrites` model cursor iteration, the notify
list of monitoring events, the merging of URI options, and the classification of
update documents.

## What is assumed

* User code is pure: an object's `bsonSerialize()` either throws or returns a fixed
  value, and an object of a user class is its class name and the data it was
  unserialised from. Which classes exist and which interfaces they implement, and
  which strings are valid UTF-8, are parameters (`Values.Runtime`).
* libbson hands the visitors a well-formed tree whose keys have no null character,
  with elements of unknown type marked as such; it keeps of a regular expression's
  options the known ones, in alphabetical order.
* PHP does not call a method while an exception is pending.
* Serialising the arguments of a Manager is injective, so that two client hashes
  are equal only if process ID, arguments and the key vault's hash are; process IDs
  are not reused.
* A Manager is freed when nothing refers to it, and the objects of a request are
  gone before the request ends.
* Integers are 64 bits wide in PHP.

## Results that differ from what one may expect

* A class found at the root of one document stays in a cursor's state and changes
  how later documents are shown (`Cursors.EarlierClassMatters`).
* An embedded Persistable does not drop a `__pclass` key of its data, as a root does,
  and comes back as the class that names (`Persistables.EmbeddedClass`).
* `maxStalenessSeconds` before `readPreference` is refused where the same options in
  the other order are accepted (`UriOptions.StalenessOrderMatters`).

## Model

| member | source | states |
|---|---|---|
| Keys.KeyOf | src/bson.c:229 | filing a BSON key as a PHP key loses nothing: its spelling is the BSON key |
| Keys.KeyOfDecInt | src/bson-encode.c:456-460 | the spelling of a 64-bit integer key is filed as that integer |
| Keys.KeyOfInjective | src/bson.c:229 | different BSON keys are filed as different PHP keys |
| Keys.PutUpdates | src/bson.c:229 | adding under a key keeps keys unique, binds that key, and leaves all other bindings |
| FieldPaths.JoinedLength | src/bson.c:63-68 | the buffer size computed is that of all set keys with their dots, and a terminator |
| FieldPaths.CopyKeys | src/bson.c:73-82 | every write stays in a buffer of that size, which ends up holding each set key and a dot |
| FieldPaths.DottedIsJoin | src/bson.c:82 | overwriting the last dot leaves the keys joined with dots |
| FieldPaths.FieldPath.AsString | src/bson.c:49-85 | the set keys up to and including the current level, joined with dots |
| FieldPaths.FieldPath.EnsureAllocation | src/bson.c:114-128 | afterwards there is room for the current level, by 8 more than the size if it was full; what was stored is kept, and what is added is cleared |
| FieldPaths.FieldPath.WriteItemAtCurrentLevel | src/bson.c:130-139 | sets the current level's key and leaves those below |
| FieldPaths.FieldPath.WriteTypeAtCurrentLevel | src/bson.c:141-146 | sets the current level's type and no key |
| FieldPaths.FieldPath.Push | src/bson.c:148-156 | one more key, with its type |
| FieldPaths.FieldPath.Pop | src/bson.c:158-171 | one key less, and the current level cleared |
| FieldPaths.FieldPath.Descend | src/bson-encode.c:302 | one level down: the key just written is part of the path |
| FieldPaths.FieldPath.Ascend | src/bson-encode.c:304 | one level up: the keys below are as before |
| TypeMaps.MapElementMatchesFieldPath | src/bson.c:725-741 | a stored path matches exactly a path of equal length with each segment equal or "$" |
| TypeMaps.MatchesStep | src/bson.c:725-741 | segment by segment: "$" goes with any key, every other segment with the same key only |
| TypeMaps.MapFindFieldPathEntry | src/bson.c:743-754 | finds the entry at the first index that matches the current path, if any does |
| TypeMaps.OverrideIsFirstMatch | src/bson.c:743-754 | the kind asked for at a path is that of the first matching entry |
| TypeMaps.HandleFieldPathEntryForCompoundType | src/bson.c:756-775 | the entry's type replaces the default, unless it is unset |
| TypeMaps.AddFieldPath | src/bson.c:1171-1216 | accepts a non-empty key exactly when all its segments are non-empty, and stores exactly these segments |
| TypeMaps.WellFormedIffDotsSeparate | src/bson.c:1177-1198 | the keys accepted are those with no dot at either end and no two in a row |
| TypeMaps.JoinOfSplit | src/bson.c:1190-1209 | the parsed segments joined with dots are the key |
| TypeMaps.SplitOfJoin | src/bson.c:1190-1209 | parsing the join of dot-free segments gives the segments |
| Decoder.BsonState.Copy | src/bson.c:183-190 | a child state shares the parent's map and path and counts one reference more |
| Decoder.BsonState.Dtor | src/bson.c:192-202 | gives one reference up and leaves the path's keys |
| Decoder.VisitUnsupportedType | src/bson.c:209-220 | the error names the keys from the root to the element |
| Decoder.VisitLeaf | src/bson.c:222-697 | the visitors of single values: value stored by key, or by index in arrays; a class field's class remembered; path as before |
| Decoder.VisitElement | src/bson.c:699-723 | visiting any element computes the recursive decoding at its path, or its error, and on success leaves the shared path and reference count as they were |
| Decoder.VisitAll | src/bson.c:794 | the same for all elements up to the first error |
| Decoder.VisitDocument | src/bson.c:777-850 | the same for a document, with override and class decided after its children |
| Decoder.VisitArray | src/bson.c:852-926 | the same for an array |
| Decoder.VisitScope | src/bson.c:494-514 | a code scope is decoded with a fresh state and the default map, for its error only |
| Decoder.BsonToZvalEx | src/bson.c:984-1076 | decodes a document into a state the caller keeps: value by the root type and the class seen last, in this or an earlier document; root type and class as left behind, also when decoding fails |
| Decoder.ArrayIsShown | src/bson.c:879-911 | an array is a PHP array; with type object, a stdClass with properties "0", "1", ...; with a class, an instance made from its elements |
| Decoder.DocumentIsShown | src/bson.c:798-841 | a document is an instance of the class found in it, unless its type is native; else of its type's class; else stdClass or a PHP array |
| Decoder.ChildrenDependOnPathsBelow | src/bson.c:743-812 | what is below a node depends only on the entries for paths below it |
| Decoder.OverrideRewrapsItsNodes | src/bson.c:743-841 | an entry, with "$" or without, changes every node it matches from one wrapper to another around the same children |
| Decoder.OverrideLeavesOthers | src/bson.c:743-841 | an entry changes no node that it does not match and that contains none it could match |
| Decoder.OverrideKeepsAncestors | src/bson.c:743-926 | a node it does not match keeps its kind, its class, its keys and its error, and changes only in the children on the way to a match |
| Decoder.FailsUnderEveryMap | src/bson.c:777-926 | the type map does not matter for whether a value can be decoded, nor for the error |
| TreeEncoder.IsArrayOrDocument | src/bson-encode.c:54-86 | a PHP array is a BSON array exactly when its keys are 0, 1, ... in order |
| TreeEncoder.EncodeAllPut | src/bson-encode.c:417-463 | updating a PHP table and encoding it is encoding it and updating the document |
| TreeEncoder.EncodeAllAppend | src/bson-encode.c:417-463 | one more entry at the end is one more field at the end |
| TreeEncoder.EncodeAllSameKeys | src/bson-encode.c:425-431 | property tables without mangled names encode like arrays with the same keys |
| TreeEncoder.PrivatePropertyIsLeftOut | src/bson-encode.c:425-431 | private and protected properties are left out without an error; in an array such a key is an error |
| TreeEncoder.InstanceIsItsData | src/bson-encode.c:93-143 | a Serializable object encodes as the data it returns, a Persistable one as a document with its class in front of that data |
| RoundTrip.ValueRoundTrip | src/bson.c:777-926 | with any type map of native types, field paths included, every embedded value decodes and encodes to its canonical form, except that documents decoded as PHP arrays become arrays if they have list keys, and arrays decoded as objects become documents |
| RoundTrip.RootRoundTrip | src/bson.c:984-1076 | the same for whole documents |
| RoundTrip.NativeRoundTrip | src/bson.c:777-926 | whatever native types root, documents and arrays have, the result is the canonical form if and only if that form keeps its shape: it embeds no list-like document that becomes a PHP array, and no array that becomes an object |
| RoundTrip.DefaultRoundTrip | src/bson.c:984-1076 | with the default map, or root and documents decoded as objects, encoding a decoded document yields its canonical form |
| RoundTrip.ArrayRoundTrip | src/bson.c:804-811 | with documents as PHP arrays it does so if and only if the canonical form embeds no document with keys "0", "1", ..., the empty one included |
| RoundTrip.ObjectArrayRoundTrip | src/bson.c:894-901 | an array decoded as an object is encoded as a document around its canonical elements |
| RoundTrip.CanonFieldsKeepListDocuments | src/bson-encode.c:54-86 | on distinct keys this condition can be read off the document itself |
| RoundTrip.CanonKeepsFields | src/bson-encode.c:31-43 | on distinct keys the canonical form keeps fields, order and keys |
| RoundTrip.CanonIdempotent | src/bson-encode.c:31-43 | a second round trip changes nothing |
| Persistables.Trip | src/bson.c:266-296 | a tree of Persistable objects encodes and decodes to objects of the same classes at every node, with the class field in front of the same data |
| Persistables.RootTrip | src/bson-encode.c:383-390 | a root Persistable comes back as its class whatever "__pclass" entry its data has, be it an array or a stdClass object |
| Persistables.RootClass | src/bson-encode.c:383-390 | the class of a root is its own whatever it holds, and it can be decoded exactly when the code scopes in its data can |
| Persistables.OneLeadingClassField | src/bson-encode.c:124-136 | the data adds no second class field |
| Persistables.EmbeddedClass | src/bson-encode.c:124-136 | an embedded Persistable comes back as the class that the last naming "__pclass" entry of its data names, so as its own exactly when the data names no other Persistable class; it comes back exactly when the code scopes in its data can be decoded |
| Persistables.DecodesIffScopesOk | src/bson.c:494-514 | nothing the encoder writes fails to decode, but code scopes with unknown types |
| Persistables.EmbeddedClassFieldWins | src/bson-encode.c:124-136 | data that names another class exists: embedded, it wins; at the root, it is dropped |
| Encoder.GraphEncoder.ApplyProtectionBegin | phongo_compat.c:58-67 | refused exactly for a marked table; marks it |
| Encoder.GraphEncoder.ApplyProtectionEnd | phongo_compat.c:69-78 | takes the mark away |
| Encoder.GraphEncoder.PathString | src/bson-encode.c:294-296 | the text in an error is the path of the entry being appended |
| Encoder.GraphEncoder.Append | src/bson-encode.c:255-343 | appends what the graph says for this entry, given the tables it is inside of; marks and path are as before, errors or not |
| Encoder.ReferencesAreTransparent | src/bson-encode.c:333-335 | what is behind a reference is encoded in its place |
| Encoder.GraphEncoder.AppendScalar | src/bson-encode.c:261-285 | single values, with the errors for malformed text and unsupported types |
| Encoder.GraphEncoder.AppendCompound | src/bson-encode.c:287-329 | enters a table exactly when it does not enclose the entry already |
| Encoder.GraphEncoder.AppendObject | src/bson-encode.c:93-250 | objects: by their BSON class, by what they serialise to, or by their properties |
| Encoder.GraphEncoder.AppendSerializable | src/bson-encode.c:101-143 | what bsonSerialize() returns is embedded as a document with a class field, a document, or an array |
| Encoder.GraphEncoder.ZvalToBsonInternal | src/bson-encode.c:345-415 | appends the table of an array or object, or reports why there is none |
| Encoder.GraphEncoder.AppendView | src/bson-encode.c:417-463 | the loop over the entries: skipped names, keys with null bytes, errors accumulating |
| Encoder.GraphEncoder.ZvalToBson | src/bson-encode.c:465-498 | the root document, its generated and its returned "_id" |
| EncoderFaults.ErrorIsFault | src/bson-encode.c:255-343 | every error thrown belongs to a walk through the graph whose keys it names |
| EncoderFaults.FaultIsReported | src/bson-encode.c:255-343 | if there is a walk to an entry that cannot be encoded, the encoding throws; which error, the next two rows say |
| EncoderFaults.FirstError | src/bson-encode.c:294-304 | the first error thrown is that of the first faulty walk in the order of the entries, table by table |
| EncoderFaults.EveryFaultIsReported | src/bson-encode.c:434-463 | every fault on whose walk there is no Serializable object is reported, after any number of other errors, unless an earlier key with a null byte ends its loop |
| EncoderFaults.SucceedsIffNoFault | src/bson-encode.c:290-331 | encoding throws nothing if and only if the graph has no unsupported or malformed value, no key with a null byte, no failing bsonSerialize() and no table inside itself |
| EncoderFaults.FaultIffTrailOffends | src/bson-encode.c:255-343 | without reference to marks, for every error: a recursion is reported exactly for an entry whose table one is inside of by a walk entering no table twice; malformed text, unsupported types, null bytes in keys and bsonSerialize() calls that throw or return something else, exactly for the entries that have them; and errors with a path name exactly the keys on the walk |
| EncoderFaults.RootFails | src/bson-encode.c:361-410 | which roots are refused, and with which error |
| EncoderFaults.PrivateSlotIsLeftOut | src/bson-encode.c:425-431 | a private or protected property adds no field and no error |
| EncoderFaults.FaultBehindReference | src/bson-encode.c:333-335 | a fault behind a reference is that of what it refers to |
| EncoderTrees.NoRecursionWithoutCycle | src/bson-encode.c:290-331 | a table that is shared but not inside itself is never taken for a recursion |
| EncoderTrees.GraphIsTree | src/bson-encode.c:345-484 | on acyclic graphs the encoder computes the tree encoding of the unfolded value, and throws exactly if there is none, a root CursorId aside |
| EncoderTrees.GraphRoundTrip | src/bson-encode.c:345-484 | a decoded document, laid out in any acyclic way, is encoded as its canonical form |
| EncoderIds.AddIdAddsIffMissing | src/bson-encode.c:438-484 | without errors, ADD_ID adds one trailing "_id" if and only if there is none, and the returned "_id" is the document's |
| EncoderIds.IdFieldIffSeen | src/bson-encode.c:438-442 | the flag is dropped exactly when the document has an "_id" field |
| RegistryProcess.Process.FindPersistentClient | php_phongo.c:2634-2643 | finds a client exactly if one is registered under the hash, and then that of the first such entry |
| RegistryProcess.Process.ClientRegister | php_phongo.c:2580-2600 | adds an entry for the client to the registry of its kind |
| RegistryProcess.Process.ManagerConstruct | php_phongo.c:3202-3323 | a construction: cached client, early or late failure, or a new registered client |
| RegistryProcess.Process.ManagerExists | php_phongo.c:3508-3532 | finds the first index of a Manager, if it is registered |
| RegistryProcess.Process.ManagerRegister | php_phongo.c:3536-3547 | registers a Manager once |
| RegistryProcess.Process.ManagerUnregister | php_phongo.c:3551-3566 | removes a Manager if it is registered |
| RegistryProcess.Process.PclientResetOnce | php_phongo.c:3437-3443 | resets a client unless this process has done so last |
| RegistryProcess.Process.ClientResetOnce | php_phongo.c:3449-3476 | the key vault's client first, then the Manager's |
| RegistryProcess.Process.ResetClientIfPidDiffers | php_phongo.h:217-223 | only on behalf of objects of another process |
| RegistryProcess.Process.PclientDestroy | php_phongo.c:3478-3504 | destroys a client in the process that created it, else leaks it |
| RegistryProcess.Process.ClientUnregister | php_phongo.c:2602-2632 | removes and destroys a request-scoped client |
| RegistryProcess.Process.FreeObject | src/MongoDB/Manager.c:920-954 | unregisters the Manager and its client, and then gives up the key vault |
| RegistryProcess.Process.RequestInit | php_phongo.c:3574-3603 | sets up the request-scoped registries |
| RegistryProcess.Process.RequestEnd | php_phongo.c:3789-3819 | takes them down, destroying what is left first to last |
| RegistryProcess.Process.Shutdown | php_phongo.c:3823-3828 | destroys the persistent registry last to first |
| Registry.SameHash | php_phongo.c:2374-2420 | client hashes are equal exactly when process, arguments and the key vault's hash are |
| Registry.RequestShutdownDestroysRest | php_phongo.c:3803-3809 | clients left in the request's registry are destroyed first to last |
| Registry.DestroyReverseIs | php_phongo.c:3823-3828 | a registry of the process's own clients is destroyed last to first |
| RegistryOrigins.FailedConstructionsLeaveNothing | php_phongo.c:3210-3309 | on every run each persistent entry was registered by a construction that succeeded when its hash had none, and each Manager made by one that succeeded or found a cached client |
| RegistryRuns.StepKeepsInv | php_phongo.c:3437-3504 | every step of a process keeps the registry invariant |
| RegistryRuns.ForkKeepsInv | php_phongo.h:212-223 | so does a fork, in the child |
| RegistryRuns.RunKeepsInv | php_phongo.c:3437-3504 | so does every run of any number of processes |
| RegistryRuns.RequestRegistryEmpty | php_phongo.c:3803-3809 | when a request ends, no request-scoped client is left |
| RegistryRuns.ClientsDestroyedAndResetOnce | php_phongo.c:3437-3504 | on every run a client is destroyed only by its creator and at most once, and reset only by others and at most once by each |
| RegistryRuns.KeyVaultsOutliveClients | php_phongo.c:3822-3828 | on every run a registered client's key-vault client is not destroyed, and no client is destroyed after its key vault's |
| RegistryRuns.PersistentCache | php_phongo.c:3221-3224 | on every run persistent Managers have the client registered for their hash, share clients exactly when hashes are equal, and never get a parent's client |
| RegistryRuns.EntriesAreNeverOverwritten | php_phongo.c:2580-2600 | until shutdown every persistent entry keeps its place and its client |
| RegistryConservation.NoClientLeaks | php_phongo.c:3478-3504 | on every run a client that was registered is registered still or its creator has destroyed it, and has destroyed it once the creator has shut down |
| RegistryConservation.FreeDestroys | src/MongoDB/Manager.c:931-948 | on every run freeing a Manager in its process destroys its request-scoped client |
| RegistryConservation.UseInChildResets | php_phongo.h:212-223 | on every run, using a Manager or a handle of another process resets the client and those of its key vaults |
| RegistryConservation.HandleOfChildResetsNothing | src/MongoDB/Server.c:656 | an object a child makes from its parent's Manager is the child's, and using it resets nothing |
| RegistryConservation.ManagersAreListed | php_phongo.c:3536-3566 | on every run the list of Managers has exactly the Managers there are, each once, in order of construction |
| Cursors.Cursor.ForCommand | php_phongo.c:343-353 | a command's cursor has not been advanced |
| Cursors.Cursor.ForQuery | php_phongo.c:355-370 | a query's cursor has been advanced once |
| Cursors.Cursor.FreeSessionIfExhausted | src/MongoDB/Cursor.c:35-45 | the session is released when the server has no more |
| Cursors.Cursor.Next | src/MongoDB/Cursor.c:251-293 | one position on; a value exactly for a decodable document there; the session is held exactly if it was and the cursor is live; the error thrown is that of the document or the server |
| Cursors.Cursor.Rewind | src/MongoDB/Cursor.c:310-351 | refused after the first position; else the first document's value or error; the session is released when the server has no more |
| Cursors.Cursor.SetTypeMap | src/MongoDB/Cursor.c:57-100 | the current value is decoded again with the new map, and classes seen before are forgotten |
| Cursors.Cursor.ToArray | src/MongoDB/Cursor.c:134-151 | rewind and next yield every document's value once, in order, under the keys 0, 1, ..., up to the first that cannot be decoded, for query and command cursors; each is shown under the class seen last |
| Cursors.WithoutRootClasses | src/MongoDB/Cursor.c:251-351 | where no root names a class, these are the values of the documents on their own |
| Cursors.EarlierClassMatters | src/MongoDB/Cursor.c:275-279 | when exactly a class seen in an earlier document changes how a document is shown |
| Cursors.ClassLeaksIntoNextDocument | src/bson.c:1034-1036 | a cursor over a document naming a class and an empty one shows both as objects of that class |
| Apm.Monitor.AddSubscribersToNotify | src/phongo_apm.c:41-59 | adds the wanted subscribers that are not in the list, with one reference each |
| Apm.Monitor.GetSubscribersToNotify | src/phongo_apm.c:63-87 | the list holds exactly the wanted subscribers registered globally or on a Manager with this client |
| Apm.NotifyListIs | src/phongo_apm.c:63-87 | the list is exactly the distinct wanted subscribers among the registrations, in order of first registration |
| Apm.NotifyListConcerns | src/phongo_apm.c:63-87 | each subscriber registered globally or on a Manager with the client is listed once: global ones first, then Manager by Manager, each in the order of its table |
| Apm.Monitor.FindManagerForClient | src/phongo_apm.c:92-114 | the first registered Manager with the client, if there is one |
| Apm.Monitor.DispatchEvent | src/phongo_apm.c:118-133 | calls the list in order up to the first subscriber that throws |
| Apm.Monitor.CommandEvent | src/phongo_apm.c:135-173 | each subscriber concerned is called at most once, all of them if none throws, none after the first that throws; reference counts end as they began |
| Apm.Monitor.AddSubscriber | src/phongo_apm.c:309-325 | registering twice is registering once |
| Apm.Monitor.RemoveSubscriber | src/phongo_apm.c:330-345 | removes a registration and its reference, if there is one |
| Apm.DropUndoesAdd | src/phongo_apm.c:309-345 | removing undoes adding |
| UriOptions.Uri.ApplyWcOptions | php_phongo.c:1946-2077 | succeeds exactly for well-typed options with a valid result; w from the last "w", else the last "safe", else the URI; never journal with w 0 or -1; otherwise the error of the first bad option, or of the result; errors change nothing |
| UriOptions.Uri.ApplyRpOptions | php_phongo.c:1790-1944 | succeeds exactly for well-typed options in order with a valid result, of each the last; never primary with tags or staleness; otherwise the error of the first bad option, or of the result; errors change nothing |
| UriOptions.Spellings | php_phongo.c:1812-1812 | names match exactly if they differ in the case of letters only |
| UriOptions.ModeOfSpells | php_phongo.c:1823-1839 | a text sets a mode exactly if it spells that mode, in any case |
| UriOptions.LastReadPreferenceCounts | php_phongo.c:1812-1840 | the last "readPreference", in any case, sets the mode it spells |
| UriOptions.LastTagsCount | php_phongo.c:1842-1871 | the last "readPreferenceTags" sets the tags |
| UriOptions.LastStalenessCounts | php_phongo.c:1873-1911 | the last "maxStalenessSeconds" sets the staleness |
| UriOptions.RpOptionsOkIffGood | php_phongo.c:1812-1911 | which read-preference options are refused: wrong types, unknown modes, tags other than documents, staleness out of range or with primary |
| UriOptions.LastWCounts | php_phongo.c:2013-2051 | the last "w" counts, wherever "safe" stands: a number from -1 on, "majority" in any case, or a tag |
| UriOptions.LastSafeCounts | php_phongo.c:1969-1978 | without "w", the last "safe" counts: true is 1, false is 0 |
| UriOptions.LastTimeoutCounts | php_phongo.c:1980-2000 | the last "wTimeoutMS" sets the timeout |
| UriOptions.LastJournalCounts | php_phongo.c:2002-2011 | the last "journal" sets the journal |
| UriOptions.WcOptionsOkIffGood | php_phongo.c:1966-2051 | which write-concern options are refused: wrong types and ranges, of "safe" only if no "w" came before |
| UriOptions.WcOptionsNotGiven | php_phongo.c:1966-2051 | options not given leave the URI's write concern |
| UriOptions.RpOptionsNotGiven | php_phongo.c:1809-1911 | options not given leave the URI's read preference |
| UriOptions.WcErrorIs | php_phongo.c:1966-2051 | which error a bad write-concern option causes |
| UriOptions.RpErrorIs | php_phongo.c:1812-1911 | which error a bad read-preference option causes |
| UriOptions.StalenessOrderMatters | php_phongo.c:1906-1911 | staleness before the mode is refused exactly when the URI's own mode is primary |
| BulkWrites.UpdateHasOperators | src/MongoDB/BulkWrite.c:62-75 | whether a top-level key contains "$" |
| BulkWrites.OperatorAnywhere | src/MongoDB/BulkWrite.c:62-75 | a "$" anywhere in a key makes an operator |
| BulkWrites.UpdateIsPipeline | src/MongoDB/BulkWrite.c:78-119 | whether the document is a non-empty list of stages |
| BulkWrites.StageIs | src/MongoDB/BulkWrite.c:101-114 | a document that begins with a key that begins with "$" is a stage |
| BulkWrites.StageHas | src/MongoDB/BulkWrite.c:101-114 | and only such documents are |
| BulkWrites.BsonArrayHasValidKeys | src/MongoDB/BulkWrite.c:124-148 | whether the keys are "0", "1", ... in order |
| BulkWrites.PipelinesHaveNoOperators | src/MongoDB/BulkWrite.c:62-119 | a pipeline has array keys, is not empty and has no operators: the two tests exclude each other |
| BulkWrites.ValidKeysIffList | src/MongoDB/BulkWrite.c:124-148 | a PHP array encodes to valid array keys exactly when it is a list |
| BulkWrites.BulkWrite.InsertDocument | src/MongoDB/BulkWrite.c:352-397 | adds the document with its "_id", and hands that "_id" back |
| BulkWrites.BulkWrite.Update | src/MongoDB/BulkWrite.c:401-463 | encodes query, update and options, and adds what `UpdateOf` says of them, unless libmongoc refuses; the count is the number of operations |
| BulkWrites.UpdateOfIs | src/MongoDB/BulkWrite.c:401-463 | fails exactly if query, update or an option cannot be encoded, or "multi" meets a replacement; an update of many exactly with "multi", of one for operators and pipelines, else a replacement |
| BulkWrites.UpdateOptionsAre | src/MongoDB/BulkWrite.c:271-290 | the options passed on: "multi" and "upsert" always; if given, "arrayFilters" as an array with list keys, "collation" as a document, "hint" as a string or a document |
| BulkWrites.BulkWrite.Delete | src/MongoDB/BulkWrite.c:468-512 | encodes query and options, and adds what `DeleteOf` says of them, unless libmongoc refuses |
| BulkWrites.DeleteOfIs | src/MongoDB/BulkWrite.c:468-512 | fails exactly if query or an option cannot be encoded; removes one with "limit", else many |
| BulkWrites.DeleteOptionsAre | src/MongoDB/BulkWrite.c:293-310 | the options passed on: "limit" always, "collation" and "hint" if given |

## Left out

- Byte-level BSON: corrupt input, buffer exhaustion and libbson's iterators are not modelled; a document is a tree.
- Ownership of path strings, and freeing of memory in general.
- Parsing of class names in type maps, and keys of `fieldPaths` that are integers or contain null characters; a type map arrives parsed.
- Immutable PHP arrays, which are never marked, and PHP before 7.3, which counts instead of marking.
- The visibility of properties other than by their mangled names, and property tables that user code changes during encoding.
- Objects that are returned by `bsonSerialize()`, extend stdClass and implement Serializable themselves: the graph encoder treats them, the unfolding to trees does not.
- Which time a Manager's network use happens relative to a reset; Server objects made in a child are handles of the child.
- The cascade of frees when a Manager is the last to refer to its key vault: freeing the key vault is a step of its own, possible from then on.
- TLS and handshake options, authentication, and URI options other than write concern and read preference.
- Tailable cursors, and subscribers that change registrations while they are called.
- Errors of bulk writes are not told apart, and libmongoc's own verdict on an operation is a parameter.
- RegistryRuns.KeyVaultsOutliveClients: is about registered clients. A construction that fails after its client was given a key vault leaks the client: it is in no registry, is never destroyed, and so may outlive its key vault's client.
- EncoderTrees.GraphIsTree: that encoding throws where the tree encoder has no result is stated for graphs without such delegating objects (`EncoderTrees.NoDelegates`) and for roots other than a CursorId, whose properties the driver writes.
