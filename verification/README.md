# Myseelia accounts, notes and knowledge graphs in Dafny

Myseelia is a community knowledge-graph app. The part modelled here is:

- **The account subsystem.** A device holds an RSA key pair in its key
  slot and a pointer (the manifest CID) in local storage. The manifest pointer
  designates the user's manifest, which is pinned to a content-addressed
  backend (Pinata and an IPFS gateway). The manifest maps logical paths to
  records of encrypted files. Registration, loading, logout, moving an
  identity to another device through a sync payload, and reading and
  publishing the manifest are modelled as methods of a `Device` class
  whose fields are the key slot, the manifest pointer and the session record.
- **The features built on the manifest.** Markdown notes under `notes/`,
  the avatar under `private/settings/avatar.<ext>`, the start-up sequence,
  and the registered-user list kept in local storage.
- **The two knowledge-graph builders.** They turn person documents and
  organisation documents into entities and relations, with a
  find-before-push that keeps ids and (source, target) pairs unique. Each
  is specified by a recursive function and implemented by the loops of the
  source, proved equal to it.
- **The CSV loader.** It converts rows of the organisations export into
  `Organization` documents and inserts them in chunks of 1000.

The environment becomes parameters of the methods:

- cryptographic outcomes (key generation, key import, sealing);
- gateway fetches and decryption;
- whether the pinning service is reachable;
- `decodeURIComponent` and `JSON.parse` of the sync payload;
- `strptime` of the date cell;
- the clock.

The backend is a class whose documents only grow and whose identifiers
are a content address, injective on documents.

| file | module | models |
|---|---|---|
| wrappers.dfy | Wrappers | Option and Result |
| strings.dfy | Strings | startsWith/endsWith, trim/strip, first-occurrence replace, comma split, UTF-8 length |
| manifest.dfy | Manifest | the manifest, its entries, its JSON shape and shape check |
| ipfs.dfy | Ipfs | the gateway URL normaliser and the pinning backend |
| account.dfy | Account | the device's account state machine |
| notes.dfy | Notes | listing, loading, saving and deleting notes |
| account_settings.dfy | AccountSettings | avatar lookup and upload |
| init.dfy | Init | application start-up |
| browser.dfy | Browser | registered users and stored public keys |
| graph.dfy | KnowledgeGraph | the entity/relation graph and its find-before-push |
| person_graph.dfy | PersonGraph | the person graph builder |
| org_graph.dfy | OrgGraph | the organisation graph builder |
| schema.dfy | Schema | the four enumerations as datatypes, their member names and the lookup by name |
| insert_data.dfy | InsertData | row conversion and chunked loading |

## Model

| member | source | states |
|---|---|---|
| Strings.Trim | src/lib/notes.ts:111 | trimming removes only selected characters, and only at the ends: the result is a slice of the input, and neither of its end characters would be removed |
| Strings.TrimKept | src/lib/notes.ts:111 | text whose end characters are not removable is left unchanged by trimming |
| Strings.FirstIndex | src/lib/notes.ts:45 | the index found is an occurrence with no earlier occurrence; none is found exactly when the pattern never occurs |
| Strings.SplitJoin | Terminus/insert_data.py:43 | splitting at commas loses nothing: joining the pieces with commas gives the text back |
| Strings.Utf8Size | src/lib/notes.ts:124 | the UTF-8 length of a text lies between its character count and four times it |
| Manifest.WithFile | src/lib/notes.ts:147-153 | binding a path keeps the public key, sets that path's entry, leaves every other path and entry unchanged, and grows the file count by one exactly when the path is new |
| Manifest.WithoutFile | src/lib/notes.ts:188-195 | removing a path keeps the public key and every other entry, and shrinks the file count by one exactly when the path was present |
| Manifest.Encode | src/lib/auth/account.ts:76-84 | a published manifest is a JSON object carrying both `publicKey` and `files` |
| Manifest.Decode | src/lib/auth/account.ts:367-375 | a fetched document is accepted exactly when it is an object with both `publicKey` and `files`; what is accepted re-encodes to the document fetched |
| Manifest.DecodeEncode | src/lib/auth/account.ts:76-84 | publishing a manifest and fetching it back returns the same manifest |
| Ipfs.GatewayUrl | src/lib/ipfs.ts:7-20 | an unset or empty setting selects the public gateway; otherwise the URL is the setting with `https://` added exactly when it is missing and `/ipfs/` added exactly when it is missing; every result starts with `https://` and ends with `/ipfs/` |
| Ipfs.NormalisedUnchanged | src/lib/ipfs.ts:9-15 | a setting that already has the scheme and the path is used unchanged |
| Ipfs.GatewayUrlIdempotent | src/lib/ipfs.ts:7-20 | normalising a gateway URL a second time changes nothing |
| Ipfs.Backend.Put | src/lib/ipfs.ts:92-129 | when the service is reachable the document is stored under its content address, and that address is returned; otherwise null is returned and nothing changes; snapshots already pinned never change |
| Ipfs.Backend.Get | src/lib/ipfs.ts:160-172 | a fetch returns a document exactly when one is pinned under the CID, and returns that document |
| Account.Imported | src/lib/auth/account.ts:293-302 | the key pair stored from an imported private JWK is matched and keeps that JWK; it is the only matched pair with that private half, so importing a private key recovers the whole identity it came from |
| Account.Device.constructor | src/stores.ts:21-33 | a fresh device holds no keys and no pointer, and its session is loading with nobody signed in |
| Account.Device.LoadAccount | src/lib/auth/account.ts:137-209 | with no keys, the session is signed out with no error and the manifest pointer is removed; with keys but no pointer, the keys are cleared and the corrupted-state error is shown; with both, the user is signed in under the public key's modulus and the keys and pointer are kept |
| Account.Device.Register | src/lib/auth/account.ts:42-130 | existing keys: the outcome of loading the account. Generation failure: everything is cleared with "Registration failed.". Pinning failure: only the key slot is cleared. Success: the empty manifest is published, the manifest pointer designates it, the current manifest is that manifest, and the user is signed in. Pinned snapshots never change |
| Account.Device.Logout | src/lib/auth/account.ts:216-228 | the keys and pointer are removed and the session is signed out with no error, whatever the state before (so logging out twice is logging out once) |
| Account.Device.ExportCredentialsForSync | src/lib/auth/account.ts:243-274 | a payload exists exactly when the device holds both keys and a pointer; it carries the private JWK and exactly the current pointer |
| Account.Device.ImportCredentialsFromSync | src/lib/auth/account.ts:283-340 | success exactly when the payload parsed, carries a private key and a non-empty CID, and the key imports. Success: the imported identity and pointer are stored and the user is signed in. Failure: keys and pointer are cleared with "Sync failed." |
| Account.Device.GetCurrentManifest | src/lib/auth/account.ts:350-376 | a manifest is returned exactly when there are keys and a pointer, and the document under the manifest pointer is pinned and passes the shape check; it re-encodes to that document |
| Account.Device.UpdateManifest | src/lib/auth/account.ts:384-411 | refused without keys or when the manifest's public key is not the device's. When published, the manifest pointer moves to the manifest's content address and the current manifest becomes it. On failure, the manifest pointer and the backend are unchanged. Keys and session are never touched |
| Account.CurrentStable | src/lib/auth/account.ts:350-376 | as long as keys and pointer are unchanged, the current manifest is unchanged, however much the backend grows |
| Account.TransferIdentity | src/lib/auth/account.ts:243-340 | exporting from one device and importing on another succeeds exactly when the source holds keys and a pointer and the key imports; both devices then hold the same keys and pointer and see the same manifest |
| Notes.Title | src/lib/notes.ts:45 | the list title is the stored name without its trailing `.md`, or the name itself when it has none (corrected behaviour, see Findings) |
| Notes.NoteOf | src/lib/notes.ts:43-49 | a listed note carries the entry's path, CID and modification time, and its title plus `.md` is the stored name |
| Notes.NoteName | src/lib/notes.ts:111 | a note's name is never empty: a title that trims to nothing is named "Untitled Note", any other title is named by its trimmed text |
| Notes.NotePath | src/lib/notes.ts:111-113 | every save path lies under `notes/` and ends in `.md`, so saved notes are exactly what the list filter accepts |
| Notes.TrimmedTitleKept | src/lib/notes.ts:111 | a title with no white space at either end is used as it is |
| Notes.TitleRoundTrip | src/lib/notes.ts:45 | the title a saved note is listed under is the name it was saved with |
| Notes.TitleAsWrittenGarbles | src/lib/notes.ts:45 | the title as written lists the note saved as "a.md b" under "a b.md" |
| Notes.FirstMdAt1 | src/lib/notes.ts:45 | the as-written title of "a.md b.md" is "a b.md" |
| Notes.InsertNewestFirst | src/lib/notes.ts:50 | inserting a note adds exactly that note (as a multiset) |
| Notes.InsertKeepsOrder | src/lib/notes.ts:50 | inserting keeps a list sorted newest first |
| Notes.InsertKeepsDistinct | src/lib/notes.ts:41-50 | inserting a note whose path is new keeps the paths distinct |
| Notes.ListNotes | src/lib/notes.ts:30-60 | no manifest gives no notes. Otherwise the list holds exactly one note per `notes/….md` entry of the current manifest, built from that entry, with distinct paths, newest first (corrected behaviour, see Findings) |
| Notes.LoadNoteContent | src/lib/notes.ts:67-102 | content is fetched exactly when there is a manifest with an entry at the note's path, and only the CID of that entry; content is returned exactly when both the fetch and the decryption succeed, and it is what decryption yields |
| Notes.Saved | src/lib/notes.ts:134-153 | saving binds only the note's path. Its record carries the new ciphertext, the file name, `text/markdown`, the size and modification time now, and the creation time of the record it replaces (or now when there was none or it was zero). Every other entry is kept |
| Notes.SavedIsListed | src/lib/notes.ts:30-60 | a saved note appears in the list under its trimmed title, with the new CID and time |
| Notes.SaveNote | src/lib/notes.ts:110-172 | success exactly when there is a manifest, the content was pinned and the manifest was published. The current manifest then is the saved one, with the content's UTF-8 length as size. Otherwise the manifest pointer and the backend are unchanged |
| Notes.DeleteNote | src/lib/notes.ts:178-215 | success exactly when there is a manifest holding the path and the new manifest is published; the current manifest then lacks exactly that path. Otherwise the manifest pointer and the backend are unchanged |
| AccountSettings.AfterLastDot | src/lib/account-settings.ts:30 | the extension is the text after the last dot, or the whole name when it has no dot; it holds no dot |
| AccountSettings.AvatarPath | src/lib/account-settings.ts:29-32 | the avatar path is the prefix, a dot and the text after the name's last dot; when that text is empty the extension is `png` |
| AccountSettings.FindAvatarAsWritten | src/lib/account-settings.ts:56-64 | the lookup as written finds the first of the five probed extensions present, and finds nothing exactly when none is |
| AccountSettings.FindAvatar | src/lib/account-settings.ts:53-70 | the lookup finds an avatar exactly when the manifest holds a path the upload could have written. The probed extensions keep their priority (corrected behaviour, see Findings) |
| AccountSettings.GetAvatar | src/lib/account-settings.ts:39-118 | no manifest gives no avatar and no chosen path. With a manifest, a path is chosen exactly when some avatar path is present; the chosen path is an entry of the manifest, and when a probed extension is present it is the first probed one present. An avatar is returned exactly when the chosen entry can be fetched and decrypted, and it is that entry's decrypted content and metadata (corrected behaviour, see Findings) |
| AccountSettings.PurgeAvatars | src/lib/account-settings.ts:180-187 | the purge loop removes exactly the keys with the avatar prefix and keeps every other entry |
| AccountSettings.WithAvatar | src/lib/account-settings.ts:166-194 | after an upload the new record is at the new avatar path, no other avatar-prefixed path remains, and every other entry is unchanged |
| AccountSettings.UploadAvatar | src/lib/account-settings.ts:124-213 | an image over 5 MiB is refused before anything else. Then come, in order: not signed in, pinning failure, publishing failure. On success the current manifest is the one with the new avatar; on any failure the manifest pointer and the backend are unchanged |
| AccountSettings.UploadedIsOnlyAvatar | src/lib/account-settings.ts:180-189 | after an upload the only avatar path in the manifest is the uploaded one |
| AccountSettings.UploadedIsFound | src/lib/account-settings.ts:53-70 | after an upload, the corrected lookup returns exactly the uploaded avatar's path, whatever its extension (corrected behaviour, see Findings) |
| AccountSettings.UploadedJpgUnseen | src/lib/account-settings.ts:56-64 | after uploading "me.JPG", none of the probed paths is present |
| Init.Initialize | src/lib/init.ts:8-68 | the URL fragment is cleared exactly on the sync path. Start-up redirects home exactly when the payload decodes, is well formed and imports, and the imported identity is then signed in. A failed import leaves the user signed out with no keys. Without an import attempt the outcome is that of loading the account. Loading always ends |
| Browser.Added | src/lib/browser.ts:21-24 | registering a name appends it when new and leaves the list unchanged otherwise |
| Browser.AddedKeepsNoDuplicates | src/lib/browser.ts:22-24 | registering keeps the list free of duplicates |
| Browser.AddedIdempotent | src/lib/browser.ts:22-24 | registering the same name twice is registering it once |
| Browser.Storage.RegisteredUsers | src/lib/browser.ts:7-15 | outside a browser, or with a missing, blank or unreadable item, there are no users; otherwise the stored list |
| Browser.Storage.UsernameAvailable | src/lib/browser.ts:32-36 | a name is available exactly when it is not registered |
| Browser.Storage.AddRegisteredUser | src/lib/browser.ts:18-29 | in a browser the list becomes the old list with the name added, and the name is then unavailable; outside a browser nothing changes; no other item changes |
| Browser.Storage.StorePublicKey | src/lib/browser.ts:39-46 | in a browser exactly the `<username>_publicKey` item is set to the key; outside a browser nothing changes |
| Browser.RegisterTwice | src/lib/browser.ts:18-36 | after two registrations both names are taken, and the list is still free of duplicates |
| KnowledgeGraph.GrowsKeeps | src/components/CTA/cytoscape.ts:14-58 | appending entities and relations loses no entity and no relation |
| KnowledgeGraph.AddEntity | src/components/CTA/cytoscape.ts:14-22 | an entity whose id is present changes nothing; otherwise exactly that entity is appended, with its own id, label and type. Ids stay unique |
| KnowledgeGraph.AddRelation | src/components/CTA/cytoscape.ts:48-58 | a relation for a pair already related changes nothing, and the first type is kept; otherwise it is appended. Pairs stay unique |
| KnowledgeGraph.Link | src/components/CTA/cytoscape.ts:37-58 | one edge appends the entity (target, caption, `attribute`) when the target is new and keeps the entities otherwise, and adds the pair as a relation if new, and nothing else; the graph stays valid |
| PersonGraph.StripQuoted | src/components/CTA/cytoscape.ts:35 | stripping the quotes from a quoted text gives the text back |
| PersonGraph.OneAsMany | src/components/CTA/cytoscape.ts:32-89 | a list holding one value and the value itself link the same id (corrected behaviour, see Findings) |
| PersonGraph.LinkItems | src/components/CTA/cytoscape.ts:33-60 | a list field adds exactly its defined elements that are non-empty once stripped, as entities and as relations from the person, and keeps the graph valid |
| PersonGraph.LinkField | src/components/CTA/cytoscape.ts:26-89 | a field adds exactly its targets as entities and relations from the person, of the field's type, and keeps the graph valid (corrected behaviour, see Findings) |
| PersonGraph.ScalarLinkAsWrittenAddsEmptyId | src/components/CTA/cytoscape.ts:62-65 | as written, a link field holding a lone `"` yields an entity with the empty id |
| PersonGraph.PersonGraph | src/components/CTA/cytoscape.ts:8-96 | the graph built from any documents is valid: unique ids, unique pairs, and every relation between two entities (corrected behaviour, see Findings) |
| PersonGraph.PersonGraphEntities | src/components/CTA/cytoscape.ts:8-96 | the entities are exactly the persons and the targets of their links |
| PersonGraph.PersonGraphRelations | src/components/CTA/cytoscape.ts:8-96 | there is a relation from a person to each target of their links, and no other |
| PersonGraph.PersonGraphKinds | src/components/CTA/cytoscape.ts:24-56 | every relation starts at a person and is typed `vouches_for` or `LI` |
| PersonGraph.NoEmptyId | src/components/CTA/cytoscape.ts:36 | no entity has the empty id (corrected behaviour, see Findings) |
| PersonGraph.PersonOnce | src/components/CTA/cytoscape.ts:13-22 | a person named by several documents appears exactly once |
| PersonGraph.LinkItemsAttributes | src/components/CTA/cytoscape.ts:33-60 | every entity a list field adds is typed `attribute` and has one of the field's targets as its id |
| PersonGraph.LinkFieldAttributes | src/components/CTA/cytoscape.ts:26-89 | every entity a field adds is typed `attribute` and has one of the field's targets as its id |
| PersonGraph.AddPersonEntities | src/components/CTA/cytoscape.ts:12-89 | a person document adds only its person entity (typed `person`, labelled with the document's name) and attributes for its link targets; the person entity is added whenever the id is new |
| PersonGraph.PersonGraphLabels | src/components/CTA/cytoscape.ts:8-96 | every entity is either a person of some document, typed `person` and labelled with that document's name, or an `attribute` entity for a link target of some document |
| PersonGraph.PersonLabelled | src/components/CTA/cytoscape.ts:12-22 | a person that no earlier document names or links to is an entity typed `person` labelled with the name of their document |
| PersonGraph.FoundFirstKept | src/components/CTA/cytoscape.ts:13-22 | when a person's id is already an entity (for instance an attribute made for an earlier link), that entity stays with its type and label, and no other entity with that id is added |
| PersonGraph.AddLinkValue | src/components/CTA/cytoscape.ts:26-89 | the loop over one field's value builds what the specification function describes (corrected behaviour, see Findings) |
| PersonGraph.GenerateKnowledgeGraph | src/components/CTA/cytoscape.ts:8-96 | the builder's loops build exactly the specified graph, which is valid (corrected behaviour, see Findings) |
| OrgGraph.LinkItems | src/components/explore/cytoscape.ts:58-72 | a list field adds exactly its defined non-empty elements as entities and as relations from the organisation, and keeps the graph valid |
| OrgGraph.LinkField | src/components/explore/cytoscape.ts:58-147 | a field adds exactly its targets as entities and relations of the field's type, and keeps the graph valid |
| OrgGraph.OneAsMany | src/components/explore/cytoscape.ts:58-87 | a list holding one value builds the same graph as the value itself |
| OrgGraph.LinkAssignee | src/components/explore/cytoscape.ts:43-56 | a defined, non-empty assignee becomes an entity labelled with the organisation's name and " assignee" (if new) and an `assignee` relation; anything else adds nothing |
| OrgGraph.AddOrgDocs | src/components/explore/cytoscape.ts:36-151 | the documents of one id keep the graph valid |
| OrgGraph.OrgGraph | src/components/explore/cytoscape.ts:29-160 | the graph for any ids and database answers is valid |
| OrgGraph.OrgGraphEntities | src/components/explore/cytoscape.ts:29-160 | the entities are exactly the organisations found and their attributes; an id for which `getDocument` returns no document contributes nothing |
| OrgGraph.OrgGraphRelations | src/components/explore/cytoscape.ts:29-160 | each organisation found is related to exactly its attributes |
| OrgGraph.OrgGraphKinds | src/components/explore/cytoscape.ts:29-160 | every relation starts at a requested organisation and has one of the four relation types |
| OrgGraph.LinkItemsAttributes | src/components/explore/cytoscape.ts:58-72 | every entity a list field adds is typed `attribute` and has one of the field's elements as its id |
| OrgGraph.LinkFieldAttributes | src/components/explore/cytoscape.ts:58-147 | every entity a field adds is typed `attribute` and has one of the field's targets as its id |
| OrgGraph.AddOrgDocEntities | src/components/explore/cytoscape.ts:37-147 | a document adds only its organisation entity (typed `organization`, labelled with the document's name) and attributes for its assignee and field targets |
| OrgGraph.AddOrgDocAddsOrg | src/components/explore/cytoscape.ts:33-41 | a document whose organisation id is new adds the organisation entity, typed `organization` and labelled with the document's name |
| OrgGraph.AddOrgDocsEntities | src/components/explore/cytoscape.ts:36-151 | the documents of one id add only their organisation entities and attributes for their targets |
| OrgGraph.OrgFirstName | src/components/explore/cytoscape.ts:33-41 | a new organisation is labelled with the name of the first document found for it |
| OrgGraph.OrgGraphLabels | src/components/explore/cytoscape.ts:29-160 | every entity is an organisation of a requested id, typed `organization` and labelled with the name one of its documents gives, or an `attribute` entity for a target of such a document |
| OrgGraph.OrgLabelled | src/components/explore/cytoscape.ts:29-160 | an organisation found for a requested id that no earlier id's documents mention is an entity typed `organization`, labelled with the name of the first document found for it |
| OrgGraph.AddFieldValue | src/components/explore/cytoscape.ts:58-87 | the loop over one field's value builds what the specification function describes |
| OrgGraph.AddDocuments | src/components/explore/cytoscape.ts:36-151 | the loop over the documents fetched for one id builds exactly the graph the specification function gives for them |
| OrgGraph.AddDocument | src/components/explore/cytoscape.ts:37-147 | one document's statements (organisation entity, assignee, then the three fields) build exactly what the document contributes in the specification |
| OrgGraph.GenerateKnowledgeGraph | src/components/explore/cytoscape.ts:29-160 | the builder's loops build exactly the specified graph, which is valid |
| InsertData.ClosesBeforeOpenMeaning | Terminus/insert_data.py:85 | the web3 look-ahead holds exactly when a `)` follows the comma with no `(` before it |
| InsertData.ListPieces | Terminus/insert_data.py:43 | the pieces of a list cell join back to the cell without its braces, and none holds a comma |
| InsertData.Web3Pieces | Terminus/insert_data.py:83-85 | the pieces of the web3 cell join back to the cell without its braces |
| InsertData.CollectMeaning | Terminus/insert_data.py:45-58 | a cell's loop fails exactly when a piece it reaches fails, naming that piece. Otherwise the set holds exactly the members of the pieces reached before any `break` |
| InsertData.CollectSet | Terminus/insert_data.py:45-118 | the loop computes exactly the specified set or failure |
| Schema.BlockchainNamed | Terminus/schema.py:17-58 | `Blockchain[s]`: a member is found only under its own name, and no member is found when no member bears the name |
| Schema.Web3Named | Terminus/schema.py:112-133 | `Web3[s]`: a member is found only under its own name, and no member is found when no member bears the name |
| Schema.ImpactAreaNamed | Terminus/schema.py:134-149 | `ImpactArea[s]`: a member is found only under its own name, and no member is found when no member bears the name |
| Schema.TopicNamed | Terminus/schema.py:150-210 | `Topic[s]`: a member is found only under its own name, and no member is found when no member bears the name |
| InsertData.ImpactStep | Terminus/insert_data.py:46-58 | an empty piece is skipped. Otherwise the stripped, unquoted value is added, after mapping through the spelling table; a value that is neither a spelling nor a member's name fails under its own name; an added member is the spelling's or bears the value as its name |
| InsertData.BlockchainStep | Terminus/insert_data.py:62-82 | an empty piece is skipped, and "Not applicable" ends the loop. Otherwise the stripped value, after mapping through the spelling table, is added; a value that is neither a spelling nor a member's name fails under its own name |
| InsertData.Web3Step | Terminus/insert_data.py:86-93 | an empty piece is skipped. The three spellings of "Blockchain (L1, L2)" add `Blockchain`; otherwise the member bearing the value as its name is added, and a value no member bears fails under its own name |
| InsertData.TopicStep | Terminus/insert_data.py:97-118 | an empty piece is skipped. Otherwise the stripped value, after mapping through the spelling table, is added; a value that is neither a spelling nor a member's name fails under its own name |
| InsertData.ImpactAliasesCrossed | Terminus/insert_data.py:52-55 | "Invest" is filed under `Politicsactivism` and "Politics & activism" under `Investing` |
| InsertData.UnquotedKept | Terminus/insert_data.py:47 | a piece with no space or quote at either end is looked up as it is |
| InsertData.StopIgnoresRest | Terminus/insert_data.py:78-79 | everything after "Not applicable" in the blockchain cell is ignored |
| InsertData.Decimal | Terminus/insert_data.py:128-129 | a number's decimal writing is all digits |
| InsertData.DecimalRoundTrip | Terminus/insert_data.py:128-129 | reading a number's decimal writing gives the number back |
| InsertData.Upvotes | Terminus/insert_data.py:126-129 | a positive count comes only from a cell of digits |
| InsertData.UpvotesOfDecimal | Terminus/insert_data.py:126-129 | a written count is read back as itself |
| InsertData.UpvotesStored | Terminus/insert_data.py:126-133 | with the `upvotes` cell holding a count, whatever the `preJan20thUpvotes` cell holds, a zero count stores none and any other count is stored as itself (corrected behaviour, see Findings) |
| InsertData.UpvotesCellIgnoredAsWritten | Terminus/insert_data.py:130-133 | as written, the number in the upvotes cell never reaches the document |
| InsertData.ReviewedAsWrittenFollowsDescription | Terminus/insert_data.py:143 | as written, a review beside a blank description is dropped, and a blank review beside a description is stored as empty text |
| InsertData.ReviewedIgnoresDescription | Terminus/insert_data.py:143 | `reviewed` does not depend on the description cell; it is none exactly when its own cell is blank, and that cell otherwise (corrected behaviour, see Findings) |
| InsertData.DateCreatedAsWritten | Terminus/insert_data.py:152 | the guard compares the impact-area set with the one-element list holding `datetime.min`; a set value never equals a date value, so the date is always stored |
| InsertData.BlankDateStoredAsWritten | Terminus/insert_data.py:119-152 | as written, a blank date cell stores `datetime.min` |
| InsertData.DateCreatedMeaning | Terminus/insert_data.py:119-152 | the date is stored exactly when its cell is not blank, and then it is the parsed date, `datetime.min` included (corrected behaviour, see Findings) |
| InsertData.ConvertRow | Terminus/insert_data.py:40-153 | a row converts exactly when it has sixteen cells, every listed name is known and the date parses. A failure is the exception the script raises first: a short row, or the first unknown name of impact areas, blockchains, web3 and topics in that order, or the unparsed date text. A converted document holds each set, text, count and date field as its cells dictate (corrected behaviour, see Findings) |
| InsertData.FailsWithUnique | Terminus/insert_data.py:40-153 | a row raises at most one exception, and a row that raises one does not convert |
| InsertData.ConvertChunk | Terminus/insert_data.py:40-154 | a chunk converts to one document per row, in order, or fails at the first row that does not convert: every earlier row converts, and the error reported is that row's own exception (corrected behaviour, see Findings) |
| InsertData.ChunksCover | Terminus/insert_data.py:33-37 | the chunks hold every row once and in order; none is empty or longer than the chunk size, and all but the last are full |
| InsertData.Overwritten | Terminus/insert_data.py:135 | the documents after a chunk's writes are as many as the longer of the chunk and what was there |
| InsertData.ResentAsWritten | Terminus/insert_data.py:11-155 | as written, with one row more than a chunk, the second insert re-sends rows 1 to size-1 after the last row |
| InsertData.InsertChunksAsWritten | Terminus/insert_data.py:30-155 | the loop as written inserts, for each chunk, the previous batch overwritten by that chunk's documents |
| InsertData.WriteChunk | Terminus/insert_data.py:39-154 | the writes at keys 0, 1, … give the previous documents overwritten by the chunk |
| InsertData.Store | Terminus/insert_data.py:135 | writing a key sets that key and leaves the others as they were |
| InsertData.NextChunk | Terminus/insert_data.py:35 | the next chunk is the first of the remaining chunks, and the rest continue from where it ends |
| InsertData.Load | Terminus/insert_data.py:30-155 | with `orgs` emptied per chunk, every inserted batch holds exactly the documents of its chunk's rows, in order. A failing row stops the load before its chunk is inserted; the load reports the first failing row of that chunk, its position and its own exception, and every earlier row of the chunk converts; otherwise every chunk is inserted (corrected behaviour, see Findings) |

## Left out

- Cryptography (RSA and AES key generation, wrapping, encryption, decryption, key import and export) is replaced by the outcomes it produces, given as parameters. `KeyPair` carries its JWK exports, so exporting a key cannot fail. The catch of `loadAccount` (src/lib/auth/account.ts:198-208) and the error path of `exportCredentialsForSync` after its checks are therefore unreachable in the model.
- The HTTP calls to Pinata and the gateway are the `Backend` class and `fetch` parameters. Network errors appear only as "unreachable" or "not fetched". The JWT check at src/lib/ipfs.ts:93-94 is folded into reachability. `pinDataToIpfs` and `fetchFromIpfs` are folded into the `sealed` and `fetch` inputs.
- JSON parsing, base64, UTF-8 decoding, `decodeURIComponent` and `strptime`/pytz are inputs. A value of the wrong JSON type (a number where a list is expected in `registeredUsers`, a non-string list element in a graph field, a `null` field) is not modelled.
- Account.Device.ImportCredentialsFromSync: both imports of the private JWK (as a private key, and as a public key at src/lib/auth/account.ts:299) are folded into the one `accepted` outcome; whether the platform accepts a private JWK as a public key is not modelled.
- Account.Device.UpdateManifest: the comparison of public keys through `JSON.stringify` is modelled as equality of JWK values, so key-order differences are not modelled.
- Notes.ListNotes: the order among notes with equal modification times is left open. The source keeps `Object.entries` order through a stable sort.
- Ipfs.Backend.Get: a pinned document is always returned; a gateway failure (timeout, HTTP error) for a document that is pinned is not modelled, so the manifest reads cannot fail for that reason.
- Strings.Utf8Size: a JavaScript string is a sequence of UTF-16 code units, and a lone surrogate (which the UTF-8 encoder turns into the three-byte U+FFFD) has no counterpart among Dafny characters; sizes and trimming are modelled over whole characters only.
- Svelte stores (`notesStore`, `accountSettingsStore`, `sessionStore` beyond the fields above), loading flags, notifications, object URLs and console output are left out.
- The `isBrowser()` guards in account.ts are left out: the account model assumes a browser. Init.Initialize models the guard of init.ts, and browser.ts keeps its `inBrowser` parameter.
- The catch of `initialize` (src/lib/init.ts:49-59) is unreachable once `loadAccount` handles its own errors, and is left out.
- The gallery (src/routes/gallery/lib/gallery.ts), backups (src/lib/auth/backup.ts), the murmuration scripts, search/import.py, query.py and the JSON graph script are not part of this model.
- InsertData: emoji removal (insert_data.py:19-27, 41) is left out; cells are taken as already cleaned. `isdigit` is modelled over ASCII digits only, so other Unicode digits are not modelled.
- OrgGraph.GenerateKnowledgeGraph: `getDocument` is taken as a total function of the id, returning the documents found (possibly none); a rejected `client.getDocument` call (src/components/explore/cytoscape.ts:35), which aborts the whole build, is not modelled.
- InsertData: the TerminusDB client connection and `insert_document` are left out; an insert is the batch of documents it would receive.
- InsertData.InsertChunksAsWritten: models only the dictionary writes and the re-sent batches; a conversion failure in the middle of a chunk is covered by Load instead.
- Schema: the four enumerations are modelled with their members, names and lookup by name; the document class's TerminusDB field types are not.

## Findings

| source | as written | input that shows it | evidently intended | confidence | as-written member | corrected member |
|---|---|---|---|---|---|---|
| src/lib/notes.ts:45 | `entry.name.replace('.md', '')` removes the first `.md` anywhere in the name | a note saved with title "a.md b" is listed as "a b.md" | remove the trailing extension only | high, not executed | Notes.TitleAsWrittenGarbles | Notes.TitleRoundTrip |
| src/lib/account-settings.ts:56-64 | the lookup probes only png, jpg, jpeg, gif and webp, while the upload (29-31, 180-189) stores the name's own extension and removes every other avatar | upload "me.JPG": the avatar is stored at `avatar.JPG` and is never found again | find whatever avatar path the upload wrote | high, not executed | AccountSettings.UploadedJpgUnseen | AccountSettings.UploadedIsFound |
| src/components/CTA/cytoscape.ts:62-65 | the scalar branch tests for the empty string before stripping the quotes | a `vouches_for` field holding `"` yields an entity with the empty id | test after stripping, as the list branch does (line 36) | high, not executed | PersonGraph.ScalarLinkAsWrittenAddsEmptyId | PersonGraph.NoEmptyId |
| Terminus/insert_data.py:152 | the guard compares the impact-area set with `datetime.min`, which a set never equals | a row with a blank date cell stores `datetime.min` as its creation date | store no date when the cell was blank | high, not executed | InsertData.BlankDateStoredAsWritten | InsertData.DateCreatedMeaning |
| Terminus/insert_data.py:130 | `upvotes` is read from cell 7, the `preJan20thUpvotes` cell; cell 14 is never read | a row with "3" in cell 7 and "9" in cell 14 stores 3 upvotes | read cell 14, the `upvotes` column (the columns follow the field order of `Organization`) | medium, not executed | InsertData.UpvotesCellIgnoredAsWritten | InsertData.UpvotesStored |
| Terminus/insert_data.py:143 | `reviewed` is guarded on cell 3, the description | a row with a blank description and "yes" in cell 8 stores no review | guard on cell 8, as every other text field guards on its own cell | medium, not executed | InsertData.ReviewedAsWrittenFollowsDescription | InsertData.ReviewedIgnoresDescription |
| Terminus/insert_data.py:11, 39, 135, 155 | `orgs` lives across chunks while `counter` restarts at 0, and every chunk inserts all of `orgs` | 1001 rows with chunk size 1000: the second insert re-sends rows 1 to 999 | insert each chunk's documents once | high, not executed | InsertData.ResentAsWritten | InsertData.Load |
