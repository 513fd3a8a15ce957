# MPExtended: the Direct transcoder and the WiX fragment generator

This project is a Dafny model of two parts of MPExtended, with proofs about them.

**The Direct transcoder** is the pass-through strategy of the streaming service.
`BuildPipeline` writes a per-session `StreamContext` in place: it clears
`TranscodingInfo.Supported` and appends the media source's input reader to the
session's `Pipeline` at priority 1. It ignores its profile, its media info and
the seek position. `GetStreamURL` builds the retrieval locator from the service
root and the session identifier.

- `Streaming.dfy` holds the minimal session state the transcoder writes: a
  `TranscodingInfo` with its `supported` flag, and a `Pipeline` whose
  `AddDataUnit` appends a (unit, priority) stage.
- `Direct.dfy` models the transcoder as a class. `ParseStreamURL` is the inverse
  of `GetStreamURL`.

**The WiX fragment generator** is a developer tool. It walks a source directory
and writes a WiX fragment. Every directory that keeps at least one file gets:

- a `Component` with a stable, version-4-marked GUID derived from the MD5 of its
  component name;
- one `File` element per kept file;
- a `ComponentRef` in a shared `ComponentGroup`.

A subdirectory becomes a nested `Directory` element only when its subtree
contributed something.

- `WixIds.dfy` covers the file and directory filters, `Path.GetExtension`, and
  the file-Id sanitiser and truncation.
- `WixIdProperties.dfy` holds the lemmas about those.
- `Guids.dfy` covers the UTF-8 hash input, the version-nibble stamp,
  `new Guid(bytes).ToString("D")`, and the GUID lemmas.
- `Xml.dfy` models elements as values. An `XElement` object is an element under
  construction whose children grow by `Add`.
- `WixFSGenerator.dfy` holds `AddDirectory` and `Run` as imperative methods over
  `XElement` objects. Each method is proved equal to a functional specification,
  `EmitDir`/`EmitSubdirs`. Those functions give, for one directory, the elements
  it appends, the ComponentRefs it appends and the value it returns.
- `WixProperties.dfy` proves what the tool promises about that specification:
  which directories contribute, that no empty `Directory` is emitted, the naming
  of Ids, and that ComponentRefs match Components one to one.

`Options.dfy` and `Sequences.dfy` are small shared helpers.

`BuildPipeline` appends one unit to whatever the pipeline already holds and
does not require it to be empty, so `Direct.BuildPipeline` states
`stages == old(stages) + [unit]`.

## Model

| member | source | states |
|---|---|---|
| Transcoders.Direct.BuildPipeline | Services/MPExtended.Services.StreamingService/Transcoders/Direct.cs:40-46 | for any context and position: afterwards `Supported` is false whatever it was; the pipeline is its old stages plus exactly one stage (the source's input reader at priority 1), so it is one longer; the transcoder and the context's references are unchanged; no failure case once `Source` and the context's members are set |
| Transcoders.BuildPipelineIgnoresArguments | Services/MPExtended.Services.StreamingService/Transcoders/Direct.cs:40-44 | two transcoders over the same source give the same verdict and the same pipeline for any profiles, media info, identifiers and positions |
| Streaming.Pipeline.AddDataUnit | Services/MPExtended.Services.StreamingService/Transcoders/Direct.cs:44 | appends one (unit, priority) stage at the end and leaves the earlier stages as they were (no sorting assumed) |
| Transcoders.Direct.GetStreamURL | Services/MPExtended.Services.StreamingService/Transcoders/Direct.cs:35-38 | the URL parses back to exactly the identifier under the same root; its length is root + endpoint path + identifier; it ends with the identifier; it reads no state but the transcoder's |
| Transcoders.ParseStreamURL | Services/MPExtended.Services.StreamingService/Transcoders/Direct.cs:37 | a URL is recognised exactly when it starts with root + "StreamingService/stream/RetrieveStream?identifier=", and then it is that prefix followed by the returned identifier |
| Transcoders.StreamURLDependsOnlyOnIdentifier | Services/MPExtended.Services.StreamingService/Transcoders/Direct.cs:37 | transcoders with the same identifier have the same URL whatever their source, profile or media info |
| Transcoders.StreamURLInjective | Services/MPExtended.Services.StreamingService/Transcoders/Direct.cs:37 | under one root, distinct identifiers give distinct URLs |
| WixIds.LastDot | Applications/MPExtended.Applications.Development.DevTool/WixFSGenerator.cs:83 | finds the last '.' with no '.' or separator after it; None only when every '.' is followed by a separator |
| WixIds.GetExtension | Applications/MPExtended.Applications.Development.DevTool/WixFSGenerator.cs:83 | a non-empty extension is a suffix of the name, starts with '.', has at least one more character and holds no '.' or separator after its first |
| WixIdProperties.ExtensionOfSuffix | Applications/MPExtended.Applications.Development.DevTool/WixFSGenerator.cs:83 | the extension of stem + ext is ext whenever ext is '.' followed by characters that are neither '.' nor separators |
| WixIdProperties.ForbiddenExtensionDropped | Applications/MPExtended.Applications.Development.DevTool/WixFSGenerator.cs:33-34 | no name ending in ".cs", ".csproj", ".user" or ".dat" is kept |
| WixIds.KeptFiles | Applications/MPExtended.Applications.Development.DevTool/WixFSGenerator.cs:81-83 | a name is in the kept list exactly when it is listed and neither its extension nor its whole name is forbidden; the list is no longer than the listing |
| WixIds.IsKeptFile | Applications/MPExtended.Applications.Development.DevTool/WixFSGenerator.cs:83 | definitional: a name is kept when its extension is not ".cs", ".csproj", ".user" or ".dat" and the name is not "MediaInfo.dll" or "start.bat"; ForbiddenExtensionDropped and KeptFiles state what follows from it |
| WixIds.IsForbiddenDirectory | Applications/MPExtended.Applications.Development.DevTool/WixFSGenerator.cs:111-113 | definitional: a subdirectory is skipped when its name is "bin", "obj", "Debug", "Release", "VLCWrapper" or "stream"; EmitSubdirsAdded and AddDirectory use it as the filter |
| WixIdProperties.KeptFilesAppend | Applications/MPExtended.Applications.Development.DevTool/WixFSGenerator.cs:81-83 | filtering keeps listing order: filtering a + b is filtering a, then filtering b |
| WixIds.DropNonWordRun | Applications/MPExtended.Applications.Development.DevTool/WixFSGenerator.cs:99 | removes exactly the leading run of characters outside [a-zA-Z0-9_]: the rest is a suffix that is empty or starts with a word character |
| WixIds.Sanitize | Applications/MPExtended.Applications.Development.DevTool/WixFSGenerator.cs:99 | the result holds only [a-zA-Z0-9_] and is no longer than the input |
| WixIdProperties.SanitizeClean | Applications/MPExtended.Applications.Development.DevTool/WixFSGenerator.cs:99 | a string of word characters only is left unchanged |
| WixIdProperties.SanitizeIdempotent | Applications/MPExtended.Applications.Development.DevTool/WixFSGenerator.cs:99 | sanitising twice is sanitising once |
| WixIdProperties.SanitizeRun | Applications/MPExtended.Applications.Development.DevTool/WixFSGenerator.cs:99 | a whole non-empty run of non-word characters becomes one '_' |
| WixIdProperties.SanitizeSplitsAfterWordChar | Applications/MPExtended.Applications.Development.DevTool/WixFSGenerator.cs:99 | the replacement works run by run: after a word character, sanitising a + b is sanitising a, then b |
| WixIdProperties.DropNonWordRunAppend | Applications/MPExtended.Applications.Development.DevTool/WixFSGenerator.cs:99 | a leading run that ends inside a is unaffected by what follows a |
| WixIds.TruncateId | Applications/MPExtended.Applications.Development.DevTool/WixFSGenerator.cs:102 | keeps min(length, 60) characters, and what it keeps is a suffix of the Id |
| WixIds.FileIdShape | Applications/MPExtended.Applications.Development.DevTool/WixFSGenerator.cs:99-102 | every file Id starts with "FileGen_", holds only [a-zA-Z0-9_] and has at most 8 + 60 characters |
| WixIds.FileIdKeepsSuffix | Applications/MPExtended.Applications.Development.DevTool/WixFSGenerator.cs:99-102 | after "FileGen_", the Id is the whole sanitised path_file when that has at most 60 characters, and otherwise its last 60 |
| WixIds.FileId | Applications/MPExtended.Applications.Development.DevTool/WixFSGenerator.cs:99-102 | definitional: "FileGen_" followed by the truncated, sanitised path + "_" + file; its properties are stated by FileIdShape and FileIdKeepsSuffix |
| Guids.Utf8Char | Applications/MPExtended.Applications.Development.DevTool/WixFSGenerator.cs:88 | a character encodes to 1, 2, 3 or 4 bytes exactly when it is below U+0080, below U+0800, below U+10000, or above; the lead byte announces that length (0xxxxxxx, 110xxxxx, 1110xxxx, 11110xxx), every other byte is a continuation byte 10xxxxxx, and the payload bits decode (Utf8Value) back to the character |
| Guids.Utf8 | Applications/MPExtended.Applications.Development.DevTool/WixFSGenerator.cs:88 | the encoding of a string has between 1 and 4 bytes per character |
| GuidProperties.Utf8Append | Applications/MPExtended.Applications.Development.DevTool/WixFSGenerator.cs:88 | encoding a concatenation is concatenating the encodings |
| GuidProperties.Utf8Ascii | Applications/MPExtended.Applications.Development.DevTool/WixFSGenerator.cs:88 | an ASCII string encodes byte for byte to its character codes |
| GuidProperties.HashInputSplits | Applications/MPExtended.Applications.Development.DevTool/WixFSGenerator.cs:88 | the hashed bytes are the encoding of "MPExtended_Hash_Guid_" followed by the encoding of the component name |
| Guids.VersionNibbleIsBitwise | Applications/MPExtended.Applications.Development.DevTool/WixFSGenerator.cs:90 | for every byte, 0x40 OR (0x0F AND x) equals 0x40 + x mod 16, the arithmetic form the model uses |
| Guids.StampVersion | Applications/MPExtended.Applications.Development.DevTool/WixFSGenerator.cs:89-90 | the stamped byte gets high nibble 4 and keeps its low nibble; every other digest byte is unchanged |
| Guids.HexDigit | Applications/MPExtended.Applications.Development.DevTool/WixFSGenerator.cs:94 | a nibble renders as the lower-case hex digit whose value (HexValue) is that nibble: '0'-'9' for 0-9 and 'a'-'f' for 10-15 |
| GuidProperties.HexDigitIsFour | Applications/MPExtended.Applications.Development.DevTool/WixFSGenerator.cs:94 | a nibble renders as '4' exactly when it is 4 |
| GuidProperties.GuidStringLayout | Applications/MPExtended.Applications.Development.DevTool/WixFSGenerator.cs:94 | the "D" format is 36 characters with dashes at 8, 13, 18 and 23 and lower-case hex elsewhere; byte 1's high nibble prints at 4 and byte 7's at 14 |
| GuidProperties.GuidStringBytes | Applications/MPExtended.Applications.Development.DevTool/WixFSGenerator.cs:94 | byte k prints as its high digit at HexPos[k] and its low digit right after: bytes 3, 2, 1, 0 first, then 5, 4, then 7, 6, then 8, 9, then 10 to 15 in order, each group separated by a dash |
| Guids.GuidString | Applications/MPExtended.Applications.Development.DevTool/WixFSGenerator.cs:94 | the "D" rendering of `new Guid(bytes)` has 36 characters; GuidStringLayout gives the dashes and GuidStringBytes the position of every byte |
| Guids.ComponentGuid | Applications/MPExtended.Applications.Development.DevTool/WixFSGenerator.cs:87-94 | definitional: the "D" string of the MD5 of the hash input with the version byte stamped (byte 7, see Findings); the same component name always gives the same GUID since it is a function of the name and the hash; ComponentGuidIsVersion4 states its shape |
| GuidProperties.ComponentGuidIsVersion4 | Applications/MPExtended.Applications.Development.DevTool/WixFSGenerator.cs:87-94 | every component GUID is a well-formed "D" string whose version digit is '4', for any MD5 and any component name |
| GuidProperties.LittleEndianAsWrittenIsCorrected | Applications/MPExtended.Applications.Development.DevTool/WixFSGenerator.cs:89 | on little-endian machines the source stamps the byte the corrected model stamps |
| GuidProperties.BigEndianAsWrittenVersionDigit | Applications/MPExtended.Applications.Development.DevTool/WixFSGenerator.cs:89-94 | as written, on big-endian the '4' lands at position 4, and the version digit at 14 is '4' only when the digest's byte 7 already had high nibble 4 |
| GuidProperties.BigEndianAsWrittenCounterexample | Applications/MPExtended.Applications.Development.DevTool/WixFSGenerator.cs:89-94 | with an all-zero digest the big-endian GUID as written has version digit '0', so it is not version 4 |
| Xml.XElement.Add | Applications/MPExtended.Applications.Development.DevTool/WixFSGenerator.cs:106-107 | appends one child at the end and leaves the earlier children as they were |
| WixFSGenerator.AddComponent | Applications/MPExtended.Applications.Development.DevTool/WixFSGenerator.cs:86-107 | the directory node gains exactly one Component (Id = component name, GUID from the digest with byte 7 stamped, one File per kept file in order) and the group gains exactly one ComponentRef with the same Id |
| WixFSGenerator.AddDirectory | Applications/MPExtended.Applications.Development.DevTool/WixFSGenerator.cs:77-131 | the node and the group gain exactly the elements and ComponentRefs of the specification EmitDir, and the result is EmitDir's flag |
| WixFSGenerator.AddSubdirectory | Applications/MPExtended.Applications.Development.DevTool/WixFSGenerator.cs:116-127 | for one allowed subdirectory: the group gains the child's ComponentRefs; the parent gains the child's Directory element (Id basePrefix_dir, Name dir, holding the child's elements) exactly when the recursive call returns true |
| WixFSGenerator.Combine | Applications/MPExtended.Applications.Development.DevTool/WixFSGenerator.cs:122 | `Path.Combine` for a relative directory and a child name: the result starts with the path, ends with the name, and is at most one separator longer than the two together; which of the cases applies is definitional |
| WixFSGenerator.FileNode | Applications/MPExtended.Applications.Development.DevTool/WixFSGenerator.cs:100-103 | definitional: a File element with Source `$(var.SolutionDir)\` + path + `\` + file and Id FileId(path, file); FileNodeIsFileElement states its shape |
| WixFSGenerator.Run | Applications/MPExtended.Applications.Development.DevTool/WixFSGenerator.cs:52-72 | the document is Wix, then a Fragment with ComponentGroup "Component_"+name, then a Fragment with DirectoryRef "Dir_"+name, filled by the walk from the root names "Component_Generated_"+name and "Dir_Generated_"+name |
| WixProperties.EmitDirAdded | Applications/MPExtended.Applications.Development.DevTool/WixFSGenerator.cs:77-131 | AddDirectory returns true exactly when the directory, or a subdirectory reached only through allowed names, keeps at least one file |
| WixProperties.EmitSubdirsAdded | Applications/MPExtended.Applications.Development.DevTool/WixFSGenerator.cs:111-127 | the subdirectory loop adds something exactly when some subdirectory with an allowed name has content |
| WixProperties.EmitDirShape | Applications/MPExtended.Applications.Development.DevTool/WixFSGenerator.cs:106-126 | AddDirectory returns true exactly when it appended an element, and exactly when it appended a ComponentRef |
| WixProperties.EmitSubdirsShape | Applications/MPExtended.Applications.Development.DevTool/WixFSGenerator.cs:116-127 | the same for the subdirectory loop |
| WixProperties.FileNodesLength | Applications/MPExtended.Applications.Development.DevTool/WixFSGenerator.cs:97-104 | a Component has one File child per kept file |
| WixProperties.FileNodeAt | Applications/MPExtended.Applications.Development.DevTool/WixFSGenerator.cs:97-104 | the k-th File child is the element for the k-th kept file, so the kept-file order is kept |
| WixProperties.FileNodeIsFileElement | Applications/MPExtended.Applications.Development.DevTool/WixFSGenerator.cs:100-103 | every File element has a Source, an Id of the form "FileGen_" plus at most 60 word characters, and no children |
| WixProperties.ComponentNodeWellFormed | Applications/MPExtended.Applications.Development.DevTool/WixFSGenerator.cs:92-104 | a directory's Component has Id = its component name and a version-4 GUID, and holds only well-formed File elements |
| WixProperties.WellFormedContainsComponent | Applications/MPExtended.Applications.Development.DevTool/WixFSGenerator.cs:118-126 | every well-formed element holds a Component in its subtree |
| WixProperties.EmitDirWellFormed | Applications/MPExtended.Applications.Development.DevTool/WixFSGenerator.cs:92-126 | every element AddDirectory appends is well formed: a Directory is never named "bin", "obj", "Debug", "Release", "VLCWrapper" or "stream", has Id basePrefix_dir and Name dir, holds a Component somewhere below, and its own elements are well formed for the extended names |
| WixProperties.EmitSubdirsWellFormed | Applications/MPExtended.Applications.Development.DevTool/WixFSGenerator.cs:116-127 | the same for the subdirectory loop |
| WixProperties.OwnComponentIds | Applications/MPExtended.Applications.Development.DevTool/WixFSGenerator.cs:92-107 | a directory's own Component and its ComponentRef carry the same Id |
| WixProperties.EmitDirRefsMatch | Applications/MPExtended.Applications.Development.DevTool/WixFSGenerator.cs:106-126 | the group receives only ComponentRefs, and their Ids are exactly the Ids of the Components emitted under the node, in document order |
| WixProperties.EmitSubdirsRefsMatch | Applications/MPExtended.Applications.Development.DevTool/WixFSGenerator.cs:116-127 | the same for the subdirectory loop |
| WixProperties.WixDocumentConsistent | Applications/MPExtended.Applications.Development.DevTool/WixFSGenerator.cs:53-70 | in the saved document, the ComponentGroup lists exactly the Components under the DirectoryRef, every element under the DirectoryRef is well formed for the "Generated" root names, and both are empty exactly when the tree keeps no file |

## Left out

- Console dialogue, clock and file output of `Run`: the prompts, the `ReadLine` answers, the timestamp comment, the XML declaration and `Save` are left out. The answers become parameters of `Run`.
- The file system: `Directory.GetFiles`/`GetDirectories` and the installation root lookup become an input tree (`Dir`). The tree gives each directory's file and subdirectory names in listing order. The walk's I/O failures are left out too: `Directory.GetFiles` throws at line 81 when the entered directory does not exist, access is denied or the path is too long, and a directory junction cycle makes the source recurse until the path is too long; the finite `Dir` datatype rules such trees out.
- MD5: modelled as a function parameter that returns 16 bytes. The hash algorithm itself is not modelled.
- XML namespaces: every element is in the WiX namespace, so elements carry local names only. The `xmlns` attribute of the root is kept.
- Element identity: an element is added to its parent as a value once it is complete. The source adds the object and never changes it afterwards, so the two agree. Aliasing of XML objects is not modelled.
- Guids.Utf8: covers Unicode scalar values only. Strings with lone surrogates, which .NET encodes as U+FFFD, are not modelled.
- WixFSGenerator.Combine: does not model `Path.Combine`'s rule that a rooted second argument replaces the first. Directory names from a listing are never rooted.
- WixFSGenerator.AddComponent: always stamps byte 7 (Guids.VersionIndex), the little-endian branch of line 89. The big-endian branch, which stamps byte 1, is modelled only by Guids.VersionIndexAsWritten and the lemmas in Findings; AddComponent, AddDirectory and Run describe the generator with that branch corrected.
- Null references in the Direct transcoder: the model's class types and the `MediaSource` datatype cannot be null, so a transcoder whose `Source` was never set, or a context whose `TranscodingInfo` or `Pipeline` is null, is not modelled. The source throws NullReferenceException at lines 43-44 in those cases.
- Guids.StampVersion: sets the version nibble only. Like the source, it does not set the RFC 4122 variant bits.
- `WCFUtil.GetCurrentRoot()`: modelled as the `root` parameter of `GetStreamURL`.
- Pipeline ordering and draining, the transcoder dispatcher, the session table and admission control: these are not part of this model. The code that would define them is not among the modelled files.
- The context files (installation and registry lookup, the music database plug-in, service hosting, the service detector interface, the file DTO): these are plumbing around the modelled core and are not part of this model.

## Findings

| source | as written | input that shows it | evidently intended | confidence | as-written member | corrected member |
|---|---|---|---|---|---|---|
| Applications/MPExtended.Applications.Development.DevTool/WixFSGenerator.cs:89 | `byteIndex` is 7 on little-endian machines and 1 otherwise. `new Guid(byte[])` reads its bytes in the same little-endian field layout on every platform, so on big-endian the '4' is printed at position 4 of the "D" string, not at the version position 14 | a big-endian machine and an all-zero MD5 digest: the GUID's version digit is '0' | always stamp byte 7, so the version digit is '4' on every platform | medium, not executed | GuidProperties.BigEndianAsWrittenCounterexample | GuidProperties.ComponentGuidIsVersion4 |
