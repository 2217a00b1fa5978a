# DBClientFiles.NET decode pipeline, modelled in Dafny

DBClientFiles.NET reads the versioned client database tables of a game client: WDBC, WDB5 and WDC2 files. This project models the library's decode pipeline and proves properties of the model. The pipeline has these parts:

- a storage reads the four-byte signature and picks a reader for the version;
- the reader decodes the header;
- a planner lays out the file's blocks ("segments") as a chain, each block starting where the previous one ends;
- each block's handler reads its block;
- an enumerator yields the records, with index-table keys and copy-table clones laid over the base rows.

One module per source file:

- `Wdc2` and `Wdc2Section` model the WDC2 reader. This covers the header, the per-column field-info and storage-info passes that update the column descriptors in place, the pallet and common blocks, each section's segment layout, and the string-offset arithmetic.
- `Wdb5Parser` and `Wdb5FileParser` model the two generations of the WDB5 parser. These are the segment chains, the handler registration, the record count and the record buffer size.
- `WdbcStorageFile` and `WdbcReader` model the two WDBC code paths.
- `BinaryStorageFile` models the segment lookup and the "plan, read every segment in order, then enumerate" driver.
- `OffsetMapHandler`, `ListBlockHandler` and `RelationshipSegmentReader` model the block readers. `StreamExtensions` models the C-string read.
- `Wdb5SerializerGenerator` models the call-index to descriptor mapping and the reader-kind decision.
- `CopyTableEnumerator` models the copy-table state machine and `Enumerators` the overlay composition.
- `StorageImpl` models the signature decode, the version dispatch and the storage life cycle.

Shared modules:

- `Wrappers` holds Option, Result and the error kinds, which stand for the exceptions the source throws.
- `Ints` holds C# int32 wrap-around and the division that truncates toward zero.
- `Bytes` holds little-endian decoding and encoding.
- `Streams` holds a byte stream: a byte sequence with a position, read as BinaryReader reads it.
- `Segments` holds segments and chains.
- `MemberCompression` holds the compression kinds.

Code that updates objects in place is modelled in the same form:

- WDC2's column descriptors are an `array`.
- The offset map's store is an `array` with a slice length.
- Sections, handlers, enumerators and parsers are classes whose methods state their new state.
- Each method is proved against a function of the input bytes, and the promised properties are proved about those functions as lemmas.

## Model

| member | source | states |
|---|---|---|
| Wdc2.HeaderAt | DBClientFiles.NET/Internals/Versions/WDC2.cs:211-230 | a zero record count answers "no header" from the first four bytes alone; a full header needs all its bytes and has a non-zero record count; running out of bytes is EndOfStream |
| Wdc2.EmptyFileStopsEarly | DBClientFiles.NET/Internals/Versions/WDC2.cs:213-215 | a file whose record count is 0 is decided before anything after the count is read, whatever follows it |
| Wdc2.ReadMainHeader | DBClientFiles.NET/Internals/Versions/WDC2.cs:211-230 | the header read from the stream is HeaderAt of the bytes; the stream stops after the count for an empty file, after the whole header otherwise |
| Wdc2.ReadSizesAndHashes | DBClientFiles.NET/Internals/Versions/WDC2.cs:217-221 | skips field_count, reads the record size, skips the string table size, then reads both hashes; 20 bytes, or EndOfStream |
| Wdc2.ReadFlagsAndColumns | DBClientFiles.NET/Internals/Versions/WDC2.cs:222-226 | skips minIndex, maxIndex and locale, then reads flags and the index column as int16s and the column count as int32 |
| Wdc2.ReadSections | DBClientFiles.NET/Internals/Versions/WDC2.cs:235-242 | one fresh, distinct section per section header, in file order, each holding the 36-byte header at its position; EndOfStream when they do not fit |
| Wdc2Section.Section.constructor | DBClientFiles.NET/Internals/Versions/WDC2.cs:70-78 | a new section over the stream, with a zero header and empty segments |
| Wdc2Section.Section.ReadHeader | DBClientFiles.NET/Internals/Versions/WDC2.cs:88-100 | skips two words, reads the seven section fields in order and answers true; EndOfStream leaves the header unchanged |
| Wdc2Section.Section.PopulateSegmentOffsets | DBClientFiles.NET/Internals/Versions/WDC2.cs:102-130 | the placed segments are SectionLayout of the header; without the offset-map flag the records' item length is the record size and the offset map is untouched, with it the records and string table are untouched |
| Wdc2Section.SectionLayoutShape | DBClientFiles.NET/Internals/Versions/WDC2.cs:102-130 | the layout is contiguous from the section's file offset. Without flag bit 0 it is records (count x size, int32), string table, index, copy and relationship tables. With it, the offset map (offset-map offset minus file offset, int32) replaces the first two. Lengths are the header's |
| Wdc2Section.IndexTableAfterOffsetMap | DBClientFiles.NET/Internals/Versions/WDC2.cs:115-121 | with an offset map whose length does not wrap, the index table starts exactly at the header's offset-map offset |
| Wdc2Section.ReadString | DBClientFiles.NET/Internals/Versions/WDC2.cs:26-33 | a string goes through the string table exactly when the section has one, at StartOffset + byteCursor / 8 + stored minus the table's start |
| Wdc2Section.ReadPackedString | DBClientFiles.NET/Internals/Versions/WDC2.cs:35-44 | the packed overload fails with InvalidOperation exactly for an inline string at a bit offset that is not byte aligned, and reads an aligned one through the section's file reader (not the record reader's inline read) exactly when there is no string table |
| Wdc2Section.OverloadsAgree | DBClientFiles.NET/Internals/Versions/WDC2.cs:29-38 | through a string table both overloads resolve a stored value to the same relative offset; without one, the plain overload reads inline through the record reader and the packed overload through the file reader |
| Wdc2Section.Section.FindStringByOffset | DBClientFiles.NET/Internals/Versions/WDC2.cs:155-160 | an int32: the table offset minus the string table's start, exact whenever the difference fits in 32 bits |
| Wdc2Section.StringRoundTrip | DBClientFiles.NET/Internals/Versions/WDC2.cs:155-160 | resolving the value a writer stores for relative offset o gives o back, while every intermediate sum fits in 32 bits |
| Wdc2Section.ReadCommonMember | DBClientFiles.NET/Internals/Versions/WDC2.cs:140-143 | a section has no common block: always Unreachable |
| Wdc2Section.ReadPalletArrayMember | DBClientFiles.NET/Internals/Versions/WDC2.cs:145-148 | a section has no pallet block: always Unreachable |
| Wdc2Section.ReadPalletMember | DBClientFiles.NET/Internals/Versions/WDC2.cs:150-153 | a section has no pallet block: always Unreachable |
| Wdc2Section.ReadFourInt32 | DBClientFiles.NET/Internals/Versions/WDC2.cs:91-94 | four consecutive int32 reads at the position, or EndOfStream |
| Wdc2Section.ReadThreeInt32 | DBClientFiles.NET/Internals/Versions/WDC2.cs:95-97 | three consecutive int32 reads at the position, or EndOfStream |
| Wdc2.FieldEntries | DBClientFiles.NET/Internals/Versions/WDC2.cs:249-250 | there is exactly one field-info entry per column read |
| Wdc2.FieldEntriesAt | DBClientFiles.NET/Internals/Versions/WDC2.cs:249-250 | entry i is the pair of int16s at q + 4i |
| Wdc2.FieldInfoStep | DBClientFiles.NET/Internals/Versions/WDC2.cs:247-256 | one iteration keeps the number of columns |
| Wdc2.FieldInfoPass | DBClientFiles.NET/Internals/Versions/WDC2.cs:244-257 | the field-info pass keeps the number of columns |
| Wdc2.FieldInfoPassPrefix | DBClientFiles.NET/Internals/Versions/WDC2.cs:244-257 | the first n iterations depend on the first n entries only |
| Wdc2.FieldInfoPassSnoc | DBClientFiles.NET/Internals/Versions/WDC2.cs:244-257 | one more entry is one more iteration, with the previous entry's position as previousPosition (0 for the first) |
| Wdc2.FieldInfoShape | DBClientFiles.NET/Internals/Versions/WDC2.cs:252 | after n iterations only bit sizes and cardinalities change. Column i < n has BitSize 32 - stored_i; columns from n on are untouched |
| Wdc2.FieldInfoStepAt | DBClientFiles.NET/Internals/Versions/WDC2.cs:252-254 | an iteration sets column i's BitSize, sets column i-1's cardinality only when its BitSize is non-zero, and changes no other column |
| Wdc2.FieldInfoCardinality | DBClientFiles.NET/Internals/Versions/WDC2.cs:253-256 | column i's cardinality becomes (position_{i+1} - position_i) / BitSize_i, truncating, once i+1 is read and BitSize_i != 0; otherwise, and always for the last column read, it stays as it was |
| Wdc2.ReadFieldEntry | DBClientFiles.NET/Internals/Versions/WDC2.cs:249-250 | reads the stored bit size, then the record position, as int16s; or EndOfStream |
| Wdc2.FieldInfoIteration | DBClientFiles.NET/Internals/Versions/WDC2.cs:245-257 | one iteration takes the pass invariant from i to i+1, or fails as the pass does at i+1 |
| Wdc2.ApplyFieldEntry | DBClientFiles.NET/Internals/Versions/WDC2.cs:252-256 | the members array after the in-place update is FieldInfoStep of its old contents |
| Wdc2.ReadFieldInfo | DBClientFiles.NET/Internals/Versions/WDC2.cs:244-257 | the members array afterwards is FieldInfoPass over the entries read, and the stream is after them. Fails with IndexOutOfRange when a column past the array is reached, EndOfStream when the bytes run out first |
| Wdc2.Payload | DBClientFiles.NET/Internals/Versions/WDC2.cs:271-297 | the compression payload always takes 12 bytes when they are there; failure is only EndOfStream |
| Wdc2.StorageEntry | DBClientFiles.NET/Internals/Versions/WDC2.cs:262-300 | a storage-info entry takes 24 bytes when they are there; failure is only EndOfStream |
| Wdc2.StorageEntrySpec | DBClientFiles.NET/Internals/Versions/WDC2.cs:262-300 | a whole entry sets offset, compression and BitSize (fieldSizeBits when it was 0). Cardinality becomes fieldSizeBits / BitSize when BitSize != 0, so a pallet array's read cardinality survives only at BitSize 0. IsSigned is flags bit 0 for Immediate; CommonData keeps exactly the 4 default bytes |
| Wdc2.PassWith | DBClientFiles.NET/Internals/Versions/WDC2.cs:259-262 | a storage-style pass keeps the number of columns |
| Wdc2.PassWithFails | DBClientFiles.NET/Internals/Versions/WDC2.cs:259-301 | once the pass fails, further iterations fail the same way |
| Wdc2.PassWithWhole | DBClientFiles.NET/Internals/Versions/WDC2.cs:259-301 | with every 24-byte entry in range the pass succeeds, ends 24n further, and column k is entry k's result for k < n and untouched otherwise |
| Wdc2.StoragePassWhole | DBClientFiles.NET/Internals/Versions/WDC2.cs:259-301 | with all entries in the data the storage-info pass succeeds, ends after them, and updates exactly columns 0..n-1, each by its own entry |
| Wdc2.StorageCount | DBClientFiles.NET/Internals/Versions/WDC2.cs:259 | the loop runs fieldStorageInfoSize / 24 times, truncating, with no remainder check; never for a negative size |
| Wdc2.ReadPayload | DBClientFiles.NET/Internals/Versions/WDC2.cs:271-297 | the compression switch on the stream is Payload of the bytes, and the stream ends where Payload says |
| Wdc2.ReadStorageEntry | DBClientFiles.NET/Internals/Versions/WDC2.cs:262-300 | the entry read from the stream is StorageEntry of the bytes, and the stream ends where it says |
| Wdc2.StorageIteration | DBClientFiles.NET/Internals/Versions/WDC2.cs:260-301 | iteration i stores column i's updated descriptor back in the array, or fails exactly as the pass does at i+1 |
| Wdc2.ReadStorageInfo | DBClientFiles.NET/Internals/Versions/WDC2.cs:259-301 | the members array and the stream afterwards are StoragePass of the old array over the bytes, or its failure |
| Wdc2.ColumnPasses | DBClientFiles.NET/Internals/Versions/WDC2.cs:244-301 | both column passes keep the number of columns |
| Wdc2.PassesUpTo | DBClientFiles.NET/Internals/Versions/WDC2.cs:244-301 | every stage of the passes keeps the number of columns |
| Wdc2.ReadColumns | DBClientFiles.NET/Internals/Versions/WDC2.cs:244-301 | the members array and the stream afterwards are ColumnPasses (field info, then storage info right after it) over the old array, or its failure |
| Wdc2.TablesAfter | DBClientFiles.NET/Internals/Versions/WDC2.cs:303-307 | the pallet block is palletDataSize long and the common block starts at the pallet block's end with commonDataSize |
| Wdc2.ReadTables | DBClientFiles.NET/Internals/Versions/WDC2.cs:244-307 | the column passes, then the pallet block at the position where they end and the common block after it: exactly TablesAfter, or its failure |
| Wdc2.PopulateSections | DBClientFiles.NET/Internals/Versions/WDC2.cs:309-310 | every section keeps its header and has its segments laid out by SectionLayout for the file's flags and record size |
| Wdc2.PlaceSegments | DBClientFiles.NET/Internals/Versions/WDC2.cs:309-310 | the sections holding the headers read from q are all laid out (SectionsLoaded) |
| Wdc2.Reader.constructor | DBClientFiles.NET/Internals/Versions/WDC2.cs:193-197 | no header, no section array yet (None, for the source's null array), empty pallet and common blocks |
| Wdc2.Reader.LoadSections | DBClientFiles.NET/Internals/Versions/WDC2.cs:235-242 | succeeds exactly when the section headers are in the data, and then holds one fresh, distinct section per header, in order; otherwise EndOfStream |
| Wdc2.Reader.PlaceTables | DBClientFiles.NET/Internals/Versions/WDC2.cs:303-310 | the pallet and common blocks are stored, then every section is laid out |
| Wdc2.Reader.ReadBody | DBClientFiles.NET/Internals/Versions/WDC2.cs:232-310 | the outcome is BodyAt of the bytes in both directions: each failure BodyAt names, and success exactly when BodyAt succeeds. Then the sections are loaded and laid out, and the members and both blocks are BodyAt's tables |
| Wdc2.BodyAt | DBClientFiles.NET/Internals/Versions/WDC2.cs:232-310 | after the main header: Overflow for a negative section count, EndOfStream when the section headers are not all there, otherwise the column passes and blocks right after them |
| Wdc2.FileAt | DBClientFiles.NET/Internals/Versions/WDC2.cs:211-318 | false exactly for a zero record count; true exactly when the header has records and the body after it is read; EndOfStream for fewer than four bytes |
| Wdc2.BodyReads | DBClientFiles.NET/Internals/Versions/WDC2.cs:232-310 | the body is read when the section headers, the field-info entries and the storage-info entries are all in the data and both column counts fit the members |
| Wdc2.WellFormedFileReads | DBClientFiles.NET/Internals/Versions/WDC2.cs:211-318 | a file with records whose header, section headers and column entries are all present, with column counts that fit the members, is read: the answer is true |
| Wdc2.Reader.ReadHeader | DBClientFiles.NET/Internals/Versions/WDC2.cs:211-318 | the answer is FileAt of the bytes: false for no records, true exactly when every read succeeds, and otherwise the failure of the first read that fails. On false only the record count has been read: the stream is four bytes on, and the header, the section array, the members and the pallet and common blocks are left as they were, so a reader fresh from construction still has none. On true, the sections are laid out and the members, pallet block and common block are TablesAfter of the bytes after the section headers |
| Wdc2.ConcatLength | DBClientFiles.NET/Internals/Versions/WDC2.cs:329-337 | the concatenation holds every section's records |
| Wdc2.ConcatAt | DBClientFiles.NET/Internals/Versions/WDC2.cs:329-337 | record j of section i is record Before(i) + j of the whole: sections in order, records in order within each |
| Wdc2.BeforePrefix | DBClientFiles.NET/Internals/Versions/WDC2.cs:329-337 | the records before section i depend only on sections 0..i-1 |
| Wdc2.Reader.ReadRecords | DBClientFiles.NET/Internals/Versions/WDC2.cs:329-337 | NullReference exactly when the section array has not been allocated (before ReadHeader, or after it answered false); otherwise the concatenation of the sections' records in section order, with the section cursor left past the last section |
| Wdc2.Reader.ReadPalletArrayMember | DBClientFiles.NET/Internals/Versions/WDC2.cs:339-344 | an array read at the member's offset in the pallet block with the member's cardinality; IndexOutOfRange for a bad member index |
| Wdc2.Reader.ReadPalletMember | DBClientFiles.NET/Internals/Versions/WDC2.cs:346-351 | a value read at the member's offset in the pallet block; IndexOutOfRange for a bad member index |
| Wdc2.ReadCommonMember | DBClientFiles.NET/Internals/Versions/WDC2.cs:353-356 | always NotImplemented |
| Wdc2.Reader.FindStringByOffset | DBClientFiles.NET/Internals/Versions/WDC2.cs:363-367 | NullReference before the section array is allocated; otherwise forwarded to the section being parsed, relative to its string table, and IndexOutOfRange when the cursor is outside the array |
| Wdc2.ReadRecordsAt | DBClientFiles.NET/Internals/Versions/WDC2.cs:369-372 | always Unreachable |
| MemberCompression.FromCode | DBClientFiles.NET/Internals/Versions/WDC2.cs:270 | codes 0-4 are the named kinds and every other code is its own unnamed kind; RelationshipData is never read from a file |
| MemberCompression.CodeRoundTrip | DBClientFiles.NET/Internals/Versions/WDC2.cs:270 | the cast loses nothing: the code comes back from its kind, and a file kind from its code |
| Wdb5Parser.RecordCountCountsCopies | DBClientFiles.NET/Parsing/Versions/WDB5/Parser.cs:15 | RecordCount is the stored records plus one per whole 8-byte copy-table entry |
| Wdb5Parser.RecordCount | DBClientFiles.NET/Parsing/Versions/WDB5/Parser.cs:15 | an int32: the stored record count plus CopyTableLength / 8, exact when the sum fits |
| Wdb5Parser.CopyEntriesIsQuotient | DBClientFiles.NET/Parsing/Versions/WDB5/Parser.cs:15 | counting 8-byte entries one by one is length / 8 |
| Wdb5Parser.PlanSegments | DBClientFiles.NET/Parsing/Versions/WDB5/Parser.cs:29-102 | the linked chain built by appending at the tail is contiguous from the origin and holds exactly Layout's parts |
| Wdb5Parser.LayoutIds | DBClientFiles.NET/Parsing/Versions/WDB5/Parser.cs:34-101 | the chain is Header, FieldInfo, Records, then StringBlock or OffsetMap, then Relationship, IndexTable and CopyTable as flagged |
| Wdb5Parser.LayoutMembers | DBClientFiles.NET/Parsing/Versions/WDB5/Parser.cs:55-101 | a block is in the chain exactly when the header says it is present: StringBlock xor OffsetMap, the rest by their flags |
| Wdb5Parser.IdListMember | DBClientFiles.NET/Parsing/Versions/WDB5/Parser.cs:55-101 | the identifier list holds exactly the present blocks |
| Wdb5Parser.LayoutOrdered | DBClientFiles.NET/Parsing/Versions/WDB5/Parser.cs:34-101 | the chain lists its blocks in strictly increasing file order, so each occurs at most once |
| Wdb5Parser.IdListOrdered | DBClientFiles.NET/Parsing/Versions/WDB5/Parser.cs:34-101 | the identifier list is strictly ordered by rank |
| Wdb5Parser.PlannedOffsetMap | DBClientFiles.NET/Parsing/Versions/WDB5/Parser.cs:48-72 | with an offset map, Records ends at the header's string-table length, and OffsetMap starts there with length 6 x (MaxIndex - MinIndex + 1) |
| Wdb5Parser.OffsetMapHandlerAt | DBClientFiles.NET/Parsing/Versions/WDB5/Parser.cs:55-72 | with an offset map the fourth segment is OffsetMap with the offset-map handler; no other segment carries that identifier or that handler, and without an offset map none does |
| Wdb5Parser.PlannedRecords | DBClientFiles.NET/Parsing/Versions/WDB5/Parser.cs:34-63 | without one, FieldInfo follows the header, Records follows FieldInfo (FieldCount x 4 bytes) and the string block follows RecordCount x RecordSize bytes of records |
| Wdb5Parser.LargestRecordSize | DBClientFiles.NET/Parsing/Versions/WDB5/Parser.cs:110-111 | the largest size in the offset map, which is one of its sizes; 0 for an empty map |
| Wdb5Parser.RecordBufferSize | DBClientFiles.NET/Parsing/Versions/WDB5/Parser.cs:104-112 | the record size without an offset map. With one it is the largest record size of the map: at least every size and equal to one, or 0 for an empty map |
| Wdb5Parser.CreateEnumerator | DBClientFiles.NET/Parsing/Versions/WDB5/Parser.cs:114-121 | the copy-table overlay is outermost, over the index-table overlay, over OffsetMap or sequential Records by the header flag |
| Wdb5Parser.Enumerates | DBClientFiles.NET/Parsing/Versions/WDB5/Parser.cs:114-121 | the records are the rows with index-table keys applied first, then copy-table expansion |
| Wdb5Parser.EnumeratesRecordCount | DBClientFiles.NET/Parsing/Versions/WDB5/Parser.cs:15 | the enumerator yields exactly RecordCount records when the table holds one copy per 8-byte entry |
| Wdb5FileParser.RecordCountCountsCopies | DBClientFiles.NET/Parsing/File/WDB5/Parser.cs:15 | the corrected RecordCount counts one record per 8-byte copy entry |
| Wdb5FileParser.AsWrittenOvercountsCopies | DBClientFiles.NET/Parsing/File/WDB5/Parser.cs:15 | one record plus one 8-byte copy-table entry is two records, but the source's /2 counts five |
| Wdb5FileParser.RecordCountAsWritten | DBClientFiles.NET/Parsing/File/WDB5/Parser.cs:15 | as written: an int32, the stored record count plus CopyTableLength / 2, exact when the sum fits |
| Wdb5FileParser.RecordCount | DBClientFiles.NET/Parsing/File/WDB5/Parser.cs:15 | as intended: an int32, the stored record count plus CopyTableLength / 8, exact when the sum fits |
| Wdb5FileParser.Parser.constructor | DBClientFiles.NET/Parsing/File/WDB5/Parser.cs:19-24 | the field-table handler is registered first; the chain holds only the head |
| Wdb5FileParser.Parser.Prepare | DBClientFiles.NET/Parsing/File/WDB5/Parser.cs:32-99 | the chain after the head is contiguous and is Layout. The handlers are registered in Prepare's order after the earlier ones, and the record reader gets Header.RecordSize |
| Wdb5FileParser.ChainBlocks | DBClientFiles.NET/Parsing/File/WDB5/Parser.cs:34-96 | linking each block after the tail gives a contiguous chain from the head holding exactly Layout's parts |
| Wdb5FileParser.LayoutIds | DBClientFiles.NET/Parsing/File/WDB5/Parser.cs:34-96 | head, FieldInfo, Records, StringBlock or OffsetMap, then RelationShipTable, IndexTable as flagged, and CopyTable only when its length is positive |
| Wdb5FileParser.RegistrySnoc | DBClientFiles.NET/Parsing/File/WDB5/Parser.cs:54-95 | a registration files the handler under its identifier, replacing an earlier one |
| Wdb5FileParser.RegistryIntended | DBClientFiles.NET/Parsing/File/WDB5/Parser.cs:32-96 | with the offset-map handler under OffsetMap, the registrations give one entry per chained block that has a handler |
| Wdb5FileParser.BodyAfterHead | DBClientFiles.NET/Parsing/File/WDB5/Parser.cs:34-96 | the blocks after the head are the blocks Prepare chains |
| Wdb5FileParser.ExpectedMember | DBClientFiles.NET/Parsing/File/WDB5/Parser.cs:46-96 | a block is in the intended registry exactly when it is chained and has a handler, and it maps to that handler |
| Wdb5FileParser.RegistryCoversChain | DBClientFiles.NET/Parsing/File/WDB5/Parser.cs:46-96 | with the intended identifier, every chained block with a handler finds exactly that handler, and nothing else is registered |
| Wdb5FileParser.AsWrittenRegistryMissesOffsetMap | DBClientFiles.NET/Parsing/File/Segments/Handlers/Implementations/OffsetMapHandler.cs:14 | with the identifier as written (CopyTable), a file with an offset map and a copy table has no handler for its offset map, and CopyTable maps to the copy-table handler |
| Wdb5FileParser.Identifier | DBClientFiles.NET/Parsing/File/Segments/Handlers/Implementations/OffsetMapHandler.cs:14 | no identifier exactly for a block without a handler; the offset-map handler reports the identifier it declares; every other handler names a block other than OffsetMap |
| WdbcStorageFile.PlanSegments | DBClientFiles.NET/Parsing/Versions/WDBC/StorageFile.cs:34-54 | the chain is contiguous from the origin and is Records then StringBlock. The record reader's string source is the chain's string-block handler |
| WdbcStorageFile.PlannedBlocks | DBClientFiles.NET/Parsing/Versions/WDBC/StorageFile.cs:41-51 | exactly two blocks; Records holds RecordCount x RecordSize bytes (int32) and the string block follows it with the string table's length |
| WdbcStorageFile.CreateEnumerator | DBClientFiles.NET/Parsing/Versions/WDBC/StorageFile.cs:79 | the plain records enumerator, without overlays |
| WdbcStorageFile.EnumeratesStoredRows | DBClientFiles.NET/Parsing/Versions/WDBC/StorageFile.cs:18 | the enumerator yields the stored rows unchanged, so it yields RecordCount records |
| WdbcStorageFile.RecordCount | DBClientFiles.NET/Parsing/Versions/WDBC/StorageFile.cs:18 | the header's record count, unchanged: WDBC has no copy table to add records |
| WdbcStorageFile.Window | DBClientFiles.NET/Parsing/Versions/WDBC/StorageFile.cs:64-70 | a limited read sees at most length bytes, each the file's byte at offset + i, and all length of them when they are in the file |
| WdbcStorageFile.ObtainRecord | DBClientFiles.NET/Parsing/Versions/WDBC/StorageFile.cs:64-70 | the position is set to offset and the record sees exactly the window of length bytes; a negative offset fails |
| WdbcStorageFile.GetRecordKey | DBClientFiles.NET/Parsing/Versions/WDBC/StorageFile.cs:72 | always InvalidOperation |
| WdbcStorageFile.SetRecordKey | DBClientFiles.NET/Parsing/Versions/WDBC/StorageFile.cs:74 | always InvalidOperation |
| WdbcStorageFile.Clone | DBClientFiles.NET/Parsing/Versions/WDBC/StorageFile.cs:77 | always InvalidOperation |
| WdbcReader.HeaderAt | DBClientFiles.NET/Internals/Versions/WDBC.cs:22-30 | a zero record count is decided by the first four bytes. Otherwise the four int32 fields recordCount, fieldCount, recordSize and stringTableSize are read in order; EndOfStream when short |
| WdbcReader.EmptyHeaderIgnoresRest | DBClientFiles.NET/Internals/Versions/WDBC.cs:24-26 | for an empty file nothing after the record count matters |
| WdbcReader.HeaderIgnoresRest | DBClientFiles.NET/Internals/Versions/WDBC.cs:22-30 | a header is decided by its sixteen bytes |
| WdbcReader.RecordStartsStride | DBClientFiles.NET/Internals/Versions/WDBC.cs:47-49 | record k starts k record widths into the block, and every record starts before the block's end |
| WdbcReader.RecordStartsCount | DBClientFiles.NET/Internals/Versions/WDBC.cs:32-49 | a block of recordSize x recordCount bytes yields exactly recordCount records |
| WdbcReader.Reader.constructor | DBClientFiles.NET/Internals/Versions/WDBC.cs:16-20 | empty records and string table segments |
| WdbcReader.Reader.ReadHeader | DBClientFiles.NET/Internals/Versions/WDBC.cs:22-41 | false right after the count for an empty file. Otherwise Records starts after the header with recordSize x recordCount bytes, the string table starts at Records' end, and FieldCount is set |
| WdbcReader.Reader.ReadRecords | DBClientFiles.NET/Internals/Versions/WDBC.cs:43-50 | from Records.Start, one record per stride while the position is before Records.End |
| WdbcReader.ReadPalletMember | DBClientFiles.NET/Internals/Versions/WDBC.cs:52-55 | always Unreachable |
| WdbcReader.ReadCommonMember | DBClientFiles.NET/Internals/Versions/WDBC.cs:57-60 | always Unreachable |
| WdbcReader.ReadForeignKeyMember | DBClientFiles.NET/Internals/Versions/WDBC.cs:62-65 | always Unreachable |
| WdbcReader.ReadPalletArrayMember | DBClientFiles.NET/Internals/Versions/WDBC.cs:67-70 | always Unreachable |
| BinaryStorageFile.FindSegment | DBClientFiles.NET/Parsing/Versions/BinaryStorageFile.cs:68-75 | the chain walk returns the first segment with the identifier, or none when no segment has it |
| Segments.FirstIndex | DBClientFiles.NET/Parsing/Versions/BinaryStorageFile.cs:68-75 | the position found holds the identifier and no earlier one does; none means no segment has it |
| BinaryStorageFile.FindSegmentHandler | DBClientFiles.NET/Parsing/Versions/BinaryStorageFile.cs:77-85 | none exactly when no segment has the identifier; otherwise a handler of a segment with it |
| BinaryStorageFile.Reads | DBClientFiles.NET/Parsing/Versions/BinaryStorageFile.cs:104-110 | one read per segment, in chain order |
| BinaryStorageFile.StorageFile.constructor | DBClientFiles.NET/Parsing/Versions/BinaryStorageFile.cs:52-61 | the stream has to be seekable; nothing planned yet |
| BinaryStorageFile.StorageFile.Before | DBClientFiles.NET/Parsing/Versions/BinaryStorageFile.cs:87-91 | for Segments the format's chain is planned; for a WDBC file the reader gets the chain's string block. Any other step does nothing |
| BinaryStorageFile.StorageFile.ReadSegment | DBClientFiles.NET/Parsing/Versions/BinaryStorageFile.cs:107-108 | the segment's handler reads it. For the offset-map handler the outcome is BlockRead of the segment's start and length over the old store: the failure it names, or success with the store BlockRead gives. Any other handler succeeds and changes neither the store nor the position |
| BinaryStorageFile.StorageFile.After | DBClientFiles.NET/Parsing/Versions/BinaryStorageFile.cs:93-97 | for Segments a WDBC file gets its serializer and a WDB5 file its record buffer size; any other step does nothing |
| BinaryStorageFile.StorageFile.Plan | DBClientFiles.NET/Parsing/Versions/BinaryStorageFile.cs:101-102 | the position is reset to 0 before Before(Segments) plans the chain |
| BinaryStorageFile.StorageFile.ReadChain | DBClientFiles.NET/Parsing/Versions/BinaryStorageFile.cs:104-110 | every chained segment is read exactly once, in chain order. When segment k is the chain's only offset-map segment, the outcome is that segment's BlockRead: its failure, or success with the store it gives |
| BinaryStorageFile.StorageFile.Finish | DBClientFiles.NET/Parsing/Versions/BinaryStorageFile.cs:112-114 | After(Segments), and only then the format's enumerator |
| BinaryStorageFile.StorageFile.GetEnumerator | DBClientFiles.NET/Parsing/Versions/BinaryStorageFile.cs:99-115 | rewind, Before(Segments), every segment read once in order, After(Segments), then the enumerator; the trace records that order. For a WDB5 file with an offset map the outcome is BlockRead of the block at StringTableLength, 6 x (MaxIndex - MinIndex + 1) bytes long: its failure, or success with the record buffer size RecordBufferSize of the entries it keeps. Without an offset map the call succeeds with RecordBufferSize of the header alone |
| BinaryStorageFile.Wdb5OffsetMapSegment | DBClientFiles.NET/Parsing/Versions/WDB5/Parser.cs:55-111 | in a planned WDB5 chain with an offset map, segment 3 is the only one with the offset-map handler, FindSegmentHandler(OffsetMap) finds that handler, and the segment starts at StringTableLength with 6 x (MaxIndex - MinIndex + 1) bytes; without an offset map no segment has the handler |
| Segments.Link | DBClientFiles.NET/Parsing/Versions/WDB5/Parser.cs:41-53 | appending at the tail starts the new segment at the tail's end and keeps the chain contiguous |
| Enumerators.WithCopyTable | DBClientFiles.NET/Parsing/Enumerators/CopyTableEnumerator.cs:88-91 | the result is a copy-table overlay, and an overlay returns itself |
| Enumerators.WithCopyTableIdempotent | DBClientFiles.NET/Parsing/Enumerators/CopyTableEnumerator.cs:88-91 | applying WithCopyTable twice is applying it once |
| Enumerators.OverrideKeys | DBClientFiles.NET/Parsing/Versions/WDB5/Parser.cs:120 | the index-table overlay keeps the rows and their fields, and row i takes key i of the table when there is one |
| OffsetMapHandler.Entries | DBClientFiles.NET/Parsing/File/Segments/Handlers/Implementations/OffsetMapHandler.cs:29-30 | a block of n entries holds n entries |
| OffsetMapHandler.EntriesAt | DBClientFiles.NET/Parsing/File/Segments/Handlers/Implementations/OffsetMapHandler.cs:29-30 | entry k is the int32 offset and int16 size at start + 6k |
| OffsetMapHandler.ReadEntry | DBClientFiles.NET/Parsing/File/Segments/Handlers/Implementations/OffsetMapHandler.cs:29-30 | reads the 4-byte offset, then the 2-byte size; or EndOfStream |
| OffsetMapHandler.Kept | DBClientFiles.NET/Parsing/File/Segments/Handlers/Implementations/OffsetMapHandler.cs:32-38 | filtering never adds entries |
| OffsetMapHandler.KeptMembers | DBClientFiles.NET/Parsing/File/Segments/Handlers/Implementations/OffsetMapHandler.cs:32-38 | the kept entries are exactly the entries with non-zero offset and size |
| OffsetMapHandler.KeptAll | DBClientFiles.NET/Parsing/File/Segments/Handlers/Implementations/OffsetMapHandler.cs:32-38 | nothing is dropped exactly when every entry has non-zero offset and size |
| OffsetMapHandler.KeptBlock | DBClientFiles.NET/Parsing/File/Segments/Handlers/Implementations/OffsetMapHandler.cs:27-39 | among n entries at most n are kept |
| OffsetMapHandler.KeptBlockIsKept | DBClientFiles.NET/Parsing/File/Segments/Handlers/Implementations/OffsetMapHandler.cs:27-39 | the loop's kept entries are the filter of the block's entries, in file order |
| OffsetMapHandler.EntryCount | DBClientFiles.NET/Parsing/File/Segments/Handlers/Implementations/OffsetMapHandler.cs:23 | Count = (int)(length / 6): truncating division then the int cast, which is length / 6 when it fits |
| OffsetMapHandler.Handler.constructor | DBClientFiles.NET/Parsing/File/Segments/Handlers/Implementations/OffsetMapHandler.cs:12 | an empty store |
| OffsetMapHandler.Handler.ReadBlock | DBClientFiles.NET/Parsing/File/Segments/Handlers/Implementations/OffsetMapHandler.cs:16-42 | nothing for a missing block. Otherwise the store holds exactly the kept entries of the length / 6 entries from start, in order, with Count their number; IOError, Overflow and EndOfStream as the stream and the cast give them. The outcome and the new store are BlockRead of the bytes over the old store |
| OffsetMapHandler.BlockRead | DBClientFiles.NET/Parsing/File/Segments/Handlers/Implementations/OffsetMapHandler.cs:16-42 | a zero start or length keeps the previous store; a negative start is IOError; with Count = (int)(length / 6), a negative Count is Overflow and a block past the data is EndOfStream; otherwise the store is the kept entries among the block's Count entries, in order |
| OffsetMapHandler.Handler.Fill | DBClientFiles.NET/Parsing/File/Segments/Handlers/Implementations/OffsetMapHandler.cs:27-39 | the corrected loop reads Count entries and stores the kept ones in order; EndOfStream when they are not all there |
| OffsetMapHandler.AsWrittenOutcome | DBClientFiles.NET/Parsing/File/Segments/Handlers/Implementations/OffsetMapHandler.cs:27-41 | the as-written read overruns the buffer when all of the length / 6 + 1 entries are kept; it fails when none is kept; otherwise it loses the last kept entry |
| OffsetMapHandler.IterationCount | DBClientFiles.NET/Parsing/File/Segments/Handlers/Implementations/OffsetMapHandler.cs:27 | the guard position <= start + length runs length / 6 + 1 times |
| OffsetMapHandler.AsWrittenEnd | DBClientFiles.NET/Parsing/File/Segments/Handlers/Implementations/OffsetMapHandler.cs:27-41 | how the as-written loop's end maps onto AsWrittenOutcome of the length / 6 + 1 entries read |
| OffsetMapHandler.Handler.ReadBlockAsWritten | DBClientFiles.NET/Parsing/File/Segments/Handlers/Implementations/OffsetMapHandler.cs:16-42 | the handler as written ends with AsWrittenOutcome of the length / 6 + 1 entries from start |
| OffsetMapHandler.Handler.LoadAsWritten | DBClientFiles.NET/Parsing/File/Segments/Handlers/Implementations/OffsetMapHandler.cs:23-41 | from the allocation on, the same outcome as ReadBlockAsWritten |
| OffsetMapHandler.Handler.FillAsWritten | DBClientFiles.NET/Parsing/File/Segments/Handlers/Implementations/OffsetMapHandler.cs:27-39 | the as-written loop's end: the entries read, the kept prefix stored, Count one short of the kept ones, or the overrun at the last entry |
| OffsetMapHandler.Handler.GetRecordOffset | DBClientFiles.NET/Parsing/File/Segments/Handlers/Implementations/OffsetMapHandler.cs:50 | the offset of kept entry i; IndexOutOfRange outside the store |
| OffsetMapHandler.Handler.GetRecordSize | DBClientFiles.NET/Parsing/File/Segments/Handlers/Implementations/OffsetMapHandler.cs:51 | the size of kept entry i; IndexOutOfRange outside the store |
| OffsetMapHandler.AsWrittenDropsLastEntry | DBClientFiles.NET/Parsing/File/Segments/Handlers/Implementations/OffsetMapHandler.cs:27 | a one-entry block with a kept entry, followed by a zero entry, ends as written with an empty store, and the corrected read keeps the entry |
| ListBlockHandler.ReadFromStride | DBClientFiles.NET/Parsing/File/Segments/Handlers/ListBlockHandler.cs:30-31 | element k is read at p + 4k, before the end, in read order |
| ListBlockHandler.ReadFromWholeBlock | DBClientFiles.NET/Parsing/File/Segments/Handlers/ListBlockHandler.cs:30-31 | a block of n whole elements inside the data is read completely: n elements |
| ListBlockHandler.FirstAt | DBClientFiles.NET/Parsing/File/Segments/Handlers/ListBlockHandler.cs:76-79 | the first position holding x, or -1 exactly when x is absent |
| ListBlockHandler.InsertShifts | DBClientFiles.NET/Parsing/File/Segments/Handlers/ListBlockHandler.cs:81-84 | insertion shifts the elements from i one place up and changes nothing else |
| ListBlockHandler.DeleteShifts | DBClientFiles.NET/Parsing/File/Segments/Handlers/ListBlockHandler.cs:91-94 | removal shifts the elements after i one place down and changes nothing else |
| ListBlockHandler.InsertDeleteRoundTrip | DBClientFiles.NET/Parsing/File/Segments/Handlers/ListBlockHandler.cs:81-94 | removing what was inserted gives the list back, and so does re-inserting what was removed |
| ListBlockHandler.RemoveFirstMultiset | DBClientFiles.NET/Parsing/File/Segments/Handlers/ListBlockHandler.cs:86-89 | removing the first occurrence takes exactly one x out of the list |
| ListBlockHandler.Handler.constructor | DBClientFiles.NET/Parsing/File/Segments/Handlers/ListBlockHandler.cs:15-18 | an empty store |
| ListBlockHandler.Handler.FromStore | DBClientFiles.NET/Parsing/File/Segments/Handlers/ListBlockHandler.cs:20-23 | the given store |
| ListBlockHandler.Handler.ReadBlock | DBClientFiles.NET/Parsing/File/Segments/Handlers/ListBlockHandler.cs:25-32 | nothing for a missing block. Otherwise the elements read while the position is before start + length are appended in order, with the old store kept as a prefix |
| ListBlockHandler.Handler.WriteBlock | DBClientFiles.NET/Parsing/File/Segments/Handlers/ListBlockHandler.cs:34-37 | always NotImplemented |
| ListBlockHandler.Handler.Count | DBClientFiles.NET/Parsing/File/Segments/Handlers/ListBlockHandler.cs:48 | the number of elements |
| ListBlockHandler.Handler.Get | DBClientFiles.NET/Parsing/File/Segments/Handlers/ListBlockHandler.cs:43-44 | element i, or ArgumentOutOfRange exactly outside the list |
| ListBlockHandler.Handler.Set | DBClientFiles.NET/Parsing/File/Segments/Handlers/ListBlockHandler.cs:45 | replaces element i only; ArgumentOutOfRange outside the list, which is then unchanged |
| ListBlockHandler.Handler.Add | DBClientFiles.NET/Parsing/File/Segments/Handlers/ListBlockHandler.cs:51-54 | exactly one element at the end; Count grows by one |
| ListBlockHandler.Handler.Clear | DBClientFiles.NET/Parsing/File/Segments/Handlers/ListBlockHandler.cs:56-59 | Count becomes 0 |
| ListBlockHandler.Handler.Contains | DBClientFiles.NET/Parsing/File/Segments/Handlers/ListBlockHandler.cs:61-64 | true exactly when some element equals the item |
| ListBlockHandler.Handler.IndexOf | DBClientFiles.NET/Parsing/File/Segments/Handlers/ListBlockHandler.cs:76-79 | the first matching position, or -1 exactly when Contains is false |
| ListBlockHandler.Handler.Insert | DBClientFiles.NET/Parsing/File/Segments/Handlers/ListBlockHandler.cs:81-84 | InsertAt for 0 <= i <= Count, otherwise ArgumentOutOfRange with the list unchanged |
| ListBlockHandler.Handler.RemoveAt | DBClientFiles.NET/Parsing/File/Segments/Handlers/ListBlockHandler.cs:91-94 | DeleteAt inside the list, otherwise ArgumentOutOfRange with the list unchanged |
| ListBlockHandler.Handler.Remove | DBClientFiles.NET/Parsing/File/Segments/Handlers/ListBlockHandler.cs:86-89 | true exactly when the item was present, and then its first occurrence is removed; otherwise nothing changes |
| ListBlockHandler.Handler.CopyTo | DBClientFiles.NET/Parsing/File/Segments/Handlers/ListBlockHandler.cs:66-69 | the elements are copied into the array from the index. A null array, a negative index or too little room fails, changing nothing |
| RelationshipSegmentReader.ReadNode | DBClientFiles.NET/Internals/Segments/Readers/RelationShipSegmentReader.cs:34-36 | an int32 record index, then up to four key bytes; or EndOfStream |
| RelationshipSegmentReader.WholeTable | DBClientFiles.NET/Internals/Segments/Readers/RelationShipSegmentReader.cs:32-37 | with all 8n bytes there the loop reads exactly n entries, entry k being the index and the 4 key bytes at p + 8k |
| RelationshipSegmentReader.NodesBound | DBClientFiles.NET/Internals/Segments/Readers/RelationShipSegmentReader.cs:32-37 | at most entryCount entries, all of them exactly when the loop completes |
| RelationshipSegmentReader.Slots | DBClientFiles.NET/Internals/Segments/Readers/RelationShipSegmentReader.cs:30-37 | the table has entryCount slots: the entries read, in order, then null slots |
| RelationshipSegmentReader.FillTable | DBClientFiles.NET/Internals/Segments/Readers/RelationShipSegmentReader.cs:32-37 | slot i gets the i-th entry read from the stream |
| RelationshipSegmentReader.FirstMatch | DBClientFiles.NET/Internals/Segments/Readers/RelationShipSegmentReader.cs:48 | the first entry naming the record. InvalidOperation exactly when every slot is non-null and none names it; NullReference at a null slot met first |
| RelationshipSegmentReader.LookupInFullTable | DBClientFiles.NET/Internals/Segments/Readers/RelationShipSegmentReader.cs:48 | a fully read table fails a lookup only when no entry names the record |
| RelationshipSegmentReader.KeyOf | DBClientFiles.NET/Internals/Segments/Readers/RelationShipSegmentReader.cs:49-50 | the key is the four stored bytes read as a little-endian int32; an empty key is a null pointer and fails with NullReference |
| RelationshipSegmentReader.KeyRoundTrip | DBClientFiles.NET/Internals/Segments/Readers/RelationShipSegmentReader.cs:47-50 | the key read back is the stored key's 32-bit two's-complement value |
| RelationshipSegmentReader.Reader.constructor | DBClientFiles.NET/Internals/Segments/Readers/RelationShipSegmentReader.cs:18 | no table yet |
| RelationshipSegmentReader.Reader.Read | DBClientFiles.NET/Internals/Segments/Readers/RelationShipSegmentReader.cs:20-38 | nothing without a segment. Otherwise entryCount, minIndex and maxIndex are read at the segment's start and the table is a fresh array of entryCount slots filled in file order; a negative count overflows |
| RelationshipSegmentReader.Reader.Release | DBClientFiles.NET/Internals/Segments/Readers/RelationShipSegmentReader.cs:40-43 | the table is dropped |
| RelationshipSegmentReader.Reader.GetForeignKey | DBClientFiles.NET/Internals/Segments/Readers/RelationShipSegmentReader.cs:45-51 | the key of the first entry naming the record, or the lookup's failure; NullReference before Read or after Release, and for an entry whose key is empty |
| StreamExtensions.FirstZero | DBClientFiles.NET/Utils/Extensions/StreamExtensions.cs:61 | the first zero byte at or after the position |
| StreamExtensions.Latin1 | DBClientFiles.NET/Utils/Extensions/StreamExtensions.cs:62 | one character per byte, with the byte's code |
| StreamExtensions.ReadCString | DBClientFiles.NET/Utils/Extensions/StreamExtensions.cs:57-65 | the bytes up to the first zero, without it, as characters. The stream ends just past the zero |
| StreamExtensions.Latin1Snoc | DBClientFiles.NET/Utils/Extensions/StreamExtensions.cs:62 | appending a byte appends its character |
| Wdb5SerializerGenerator.LocateFrom | DBClientFiles.NET/Parsing/Versions/WDB5/SerializerGenerator.cs:63-75 | the descriptor found is at or after the one the walk starts from |
| Wdb5SerializerGenerator.LocateCovers | DBClientFiles.NET/Parsing/Versions/WDB5/SerializerGenerator.cs:63-75 | descriptor i answers exactly the Cardinality call indices from Start(i), in list order; nothing answers a negative index or one past the total |
| Wdb5SerializerGenerator.LocateCoversAt | DBClientFiles.NET/Parsing/Versions/WDB5/SerializerGenerator.cs:63-73 | descriptor i answers call index k exactly when k lies in its own range |
| Wdb5SerializerGenerator.LocateNone | DBClientFiles.NET/Parsing/Versions/WDB5/SerializerGenerator.cs:63-75 | no descriptor answers exactly when k is negative or at least the total cardinality |
| Wdb5SerializerGenerator.MemberFor | DBClientFiles.NET/Parsing/Versions/WDB5/SerializerGenerator.cs:49-76 | the lookup fails only without field-info descriptors |
| Wdb5SerializerGenerator.IndexColumnSkipped | DBClientFiles.NET/Parsing/Versions/WDB5/SerializerGenerator.cs:51-60 | the index column has no descriptor; later call indices are shifted down by one and earlier ones are unchanged |
| Wdb5SerializerGenerator.MemberForCoverage | DBClientFiles.NET/Parsing/Versions/WDB5/SerializerGenerator.cs:62-76 | without an index table, descriptor i answers exactly its Cardinality call indices, and the relationship sentinel exactly the rest |
| Wdb5SerializerGenerator.ReaderFor | DBClientFiles.NET/Parsing/Versions/WDB5/SerializerGenerator.cs:92-121 | a reader exists exactly for None or Immediate with a primitive or string type. It reads at the member's offset and size, as a string for a string type; anything else is InvalidOperation |
| Wdb5SerializerGenerator.SentinelHasNoReader | DBClientFiles.NET/Parsing/Versions/WDB5/SerializerGenerator.cs:95-121 | the relationship-data sentinel never gets a reader |
| Wdb5SerializerGenerator.Generated | DBClientFiles.NET/Parsing/Versions/WDB5/SerializerGenerator.cs:88-121 | no descriptor yields no reader, the sentinel yields InvalidOperation, and a failed lookup fails the same way |
| Wdb5SerializerGenerator.Generator.constructor | DBClientFiles.NET/Parsing/Versions/WDB5/SerializerGenerator.cs:32-38 | the index column is set exactly when the index table exists; the call index starts at 0 |
| Wdb5SerializerGenerator.Generator.GetMemberInfo | DBClientFiles.NET/Parsing/Versions/WDB5/SerializerGenerator.cs:49-76 | the nested countdown walk answers MemberFor, and a descriptor it answers is in the list |
| Wdb5SerializerGenerator.Generator.GenerateExpressionReader | DBClientFiles.NET/Parsing/Versions/WDB5/SerializerGenerator.cs:85-122 | each step consumes the next call index and answers Generated for its lookup |
| StorageImpl.Bits | DBClientFiles.NET/Collections/Generic/StorageImpl.cs:77 | a byte has no bits above bit 7; -1 at the end of the stream has every bit set |
| StorageImpl.SignatureBytes | DBClientFiles.NET/Collections/Generic/StorageImpl.cs:77 | byte k of a signature read from four present bytes is the file's byte k: little-endian |
| StorageImpl.TruncatedSignatureUnknown | DBClientFiles.NET/Collections/Generic/StorageImpl.cs:77 | a missing fourth byte sets the top byte, so no version matches |
| StorageImpl.ReaderFor | DBClientFiles.NET/Collections/Generic/StorageImpl.cs:92-117 | WDBC, WDB2, WDB5, WDB6, WDC1 and WDC2 get a reader; WDB3 and WDB4 fail as needing client metadata; any other signature fails as unknown |
| StorageImpl.DispatchRoundTrip | DBClientFiles.NET/Collections/Generic/StorageImpl.cs:92-117 | each supported signature maps to its own reader, and each reader is reached from its signature |
| StorageImpl.Storage.constructor | DBClientFiles.NET/Collections/Generic/StorageImpl.cs:51-65 | the stream and the option, with no header and no reader yet |
| StorageImpl.Storage.InitializeHeaderInfo | DBClientFiles.NET/Collections/Generic/StorageImpl.cs:75-84 | the signature is the little-endian combination of the next four ReadByte results, each -1 past the end of the stream; a stream with fewer than four bytes left gives a signature no version has. The position moves past the bytes that were there. The header's index column and index-table flag are copied onto the member store |
| StorageImpl.ShortStreamUnsupported | DBClientFiles.NET/Collections/Generic/StorageImpl.cs:75-117 | a stream with fewer than four bytes left is dispatched to the unknown-signature UnsupportedVersion failure |
| StorageImpl.Storage.InitializeFileReader | DBClientFiles.NET/Collections/Generic/StorageImpl.cs:86-118 | once a reader exists nothing changes; otherwise the reader is ReaderFor(signature), or its failure with no reader |
| StorageImpl.Storage.Enumerate | DBClientFiles.NET/Collections/Generic/StorageImpl.cs:134-141 | the generator is taken, then the segments are read, then the records |
| StorageImpl.Storage.Dispose | DBClientFiles.NET/Collections/Generic/StorageImpl.cs:42-49 | the stream is disposed only under the copy-to-memory option; stream and reader are dropped |
| CopyTableEnumerator.Clones | DBClientFiles.NET/Parsing/Enumerators/CopyTableEnumerator.cs:52-53 | one clone per copy key |
| CopyTableEnumerator.ClonesAt | DBClientFiles.NET/Parsing/Enumerators/CopyTableEnumerator.cs:52-53 | clone i is the base record with copy key i, in copy-table order |
| CopyTableEnumerator.ExpandLength | DBClientFiles.NET/Parsing/Enumerators/CopyTableEnumerator.cs:28-67 | the expansion holds every base record plus one record per copy |
| CopyTableEnumerator.ExpandAppend | DBClientFiles.NET/Parsing/Enumerators/CopyTableEnumerator.cs:28-67 | expanding a concatenation expands each part |
| CopyTableEnumerator.ExpandPrefixLength | DBClientFiles.NET/Parsing/Enumerators/CopyTableEnumerator.cs:28-67 | the base records before i expand to BasePosition(i) records |
| CopyTableEnumerator.ExpandAt | DBClientFiles.NET/Parsing/Enumerators/CopyTableEnumerator.cs:41-56 | base record i lands at BasePosition(i), and its clone j right after it at BasePosition(i) + 1 + j |
| CopyTableEnumerator.ExpandFrom | DBClientFiles.NET/Parsing/Enumerators/CopyTableEnumerator.cs:41-66 | from any base record on, the output is that record, its clones, then the rest |
| CopyTableEnumerator.ExpandKeepsFields | DBClientFiles.NET/Parsing/Enumerators/CopyTableEnumerator.cs:49-56 | every output record has the fields of some base record; only keys change |
| CopyTableEnumerator.ExpandWithoutCopies | DBClientFiles.NET/Parsing/Enumerators/CopyTableEnumerator.cs:41-47 | when no key has copies the output is the base sequence |
| CopyTableEnumerator.Enumerator.constructor | DBClientFiles.NET/Parsing/Enumerators/CopyTableEnumerator.cs:21-73 | nothing held, and the pending output is the whole decorated sequence (the base sequence itself without a copy table) |
| CopyTableEnumerator.Enumerator.BaseObtainCurrent | DBClientFiles.NET/Parsing/Enumerators/CopyTableEnumerator.cs:33 | the next base record, or none at the end |
| CopyTableEnumerator.Enumerator.LoadBase | DBClientFiles.NET/Parsing/Enumerators/CopyTableEnumerator.cs:31-47 | a new base record is the next output and its copy keys are fetched then; at the end nothing is left |
| CopyTableEnumerator.Enumerator.NextCopy | DBClientFiles.NET/Parsing/Enumerators/CopyTableEnumerator.cs:49-56 | the next output is the held record cloned with the next copy key |
| CopyTableEnumerator.Enumerator.InstanceFactory | DBClientFiles.NET/Parsing/Enumerators/CopyTableEnumerator.cs:28-67 | each call returns the next record of the output and removes it from the pending output; at the end it returns none |
| CopyTableEnumerator.Enumerator.ObtainCurrent | DBClientFiles.NET/Parsing/Enumerators/CopyTableEnumerator.cs:75-78 | the next element of the decorated sequence, or none at its end |
| CopyTableEnumerator.Enumerator.Reset | DBClientFiles.NET/Parsing/Enumerators/CopyTableEnumerator.cs:80-86 | held record and cursor are cleared and the output starts over |
| CopyTableEnumerator.Enumerator.InstanceFactoryAsWritten | DBClientFiles.NET/Parsing/Enumerators/CopyTableEnumerator.cs:28-67 | as written: a base key with no copy entry leaves the cursor null, and the next call returns the same held record |
| CopyTableEnumerator.AsWrittenRepeatsBase | DBClientFiles.NET/Parsing/Enumerators/CopyTableEnumerator.cs:41-48 | with two base records and an empty copy table, the first two calls as written both return record 1 |
| CopyTableEnumerator.IntendedMovesOn | DBClientFiles.NET/Parsing/Enumerators/CopyTableEnumerator.cs:41-66 | on the same input the corrected enumerator returns record 1, then record 2 |
| CopyTableEnumerator.LastAsWritten | DBClientFiles.NET/Parsing/Enumerators/CopyTableEnumerator.cs:93-103 | as written: when the held key has copies, the last base record without a copy key; when the lookup fails, the ArgumentNullException of LINQ's Last on the null copy keys (NullReference) |
| CopyTableEnumerator.Last | DBClientFiles.NET/Parsing/Enumerators/CopyTableEnumerator.cs:93-103 | the last element of the decorated sequence |
| CopyTableEnumerator.LastOfOutput | DBClientFiles.NET/Parsing/Enumerators/CopyTableEnumerator.cs:93-103 | the last output element is the last base record, carrying its last copy key when it has copies |
| CopyTableEnumerator.LastAsWrittenIgnoresCopies | DBClientFiles.NET/Parsing/Enumerators/CopyTableEnumerator.cs:96 | one base record with copies 105 and 205: Last as written returns the base, the decorated sequence ends with key 205 |

## Left out

- Runtime code generation is not modelled: the expression trees and MakeLambda of the WDB5 generator, and the WDBC serializer generator. Only the reader-kind decision is modelled, as a datatype.
- The WDC2 code generators are not modelled: the `Generator` getter and the `_codeGenerator` pair ReadHeader creates at its end. `Wdc2.Reader.ReadHeader` answers true without them.
- WDC2's `ReadForeignKeyMember` forwards to the WDC1 base reader, which is not part of this model.
- WDC2's `ReadSegments`, the section's `ReadSegments`, `GetRecordReader` and `ReleaseResources` are not modelled; the pallet-table reader and the copy-table reader are not part of this model.
- WdbcReader.Reader.ReadRecords: returns every record start at once where the source yields them lazily, and requires a positive record size, where a zero size would make the source's loop run forever.
- Each section's own record reading is supplied to `Wdc2.Reader.ReadRecords` as a parameter, because the WDC1 base reader is not part of this model.
- The base section lookup behind `FindStringByOffset` (the string-table reader) is not part of this model: the model stops at the relative offset.
- MemberCompression.FromCode: the numbering 0 None, 1 Immediate, 2 CommonData, 3 BitpackedPalletData, 4 BitpackedPalletArrayData assumes the declaration order of `MemberCompressionType`, whose declaration is not part of this model; so does the claim that no file code names RelationshipData.
- WDC2's sections are an optional sequence of section objects, not a fixed array: None stands for the array before it is allocated. A negative section count is the overflow the array allocation reports. When a section header read fails, the source has already allocated the array and left its later slots null; the model keeps the previous value, and no caller uses it after the exception.
- Wdc2.Reader.ReadHeader: states nothing about the fields it has already assigned when a later read fails, because the source leaves them as they are and no caller uses them after the exception.
- OffsetMapHandler.Handler.ReadBlockAsWritten: states the outcome only when start and length are positive and the entry after the block lies inside the data. When that entry is cut short the read fails with EndOfStream, which the contract leaves unstated.
- The index-table, copy-table, string-block and field-info handlers are recorded in the driver's trace, not modelled. Only the offset-map handler's reading changes the storage file's state.
- The index-table overlay (`WithIndexTable`) is not part of this model's sources. `Enumerators.OverrideKeys` assumes row i takes index-table key i.
- The offset-map handler of the WDB5 parser's generation (the `Parsing.Shared` handler) is not part of this model's sources. `BinaryStorageFile.StorageFile.ReadSegment` assumes it reads its block as the corrected `OffsetMapHandler.Handler.ReadBlock` does.
- `GetLargestRecordSize` is not part of this model's sources and is modelled as the largest kept size, 0 for none.
- `RegisterBlockHandler` is not part of this model's sources. It is modelled as filing each handler under its identifier, a later registration replacing an earlier one.
- The base `Segment` class that places the head segment is not part of this model, so the head's start is a parameter. The header size `Unsafe.SizeOf<Header>()` is a parameter too.
- `ListBlockHandler.ReadElement` is abstract. The model reads 4-byte little-endian int32 elements and fails with EndOfStream when one is cut short. `IsReadOnly` and `GetEnumerator` are not modelled; the store itself is the enumeration order. `ListBlockHandler.Handler.FromStore` copies the given list where the source keeps a reference to it, so changes made through the caller's list after construction are not modelled.
- RelationshipSegmentReader.KeyOf: a key of one to three bytes, cut short at the end of the data, is modelled as failing with IndexOutOfRange. The source reads past the end of the array without a check and returns whatever bytes follow, which the model cannot know.
- `RelationshipSegmentReader.FillTable` keeps a null slot where the source leaves an empty node (record index 0, no key) after a read fails mid-table. The failure ends `Read`, and the table is not used afterwards.
- `RelationshipSegmentReader.Reader.GetForeignKey` decodes the key as a 4-byte int32. The unsafe reinterpretation as a wider type, which the source's TODO warns about, is not modelled. minIndex and maxIndex are read as 4-byte keys.
- `ReadCString` needs a zero byte at or after the position. Without one the source loops forever at the end of the stream, since -1 is never 0, so the model requires it.
- WdbcStorageFile.ObtainRecord: requires a non-negative length. The length is the header's record size and nothing checks it, but what `Limit` does with a negative length is not part of this model.
- Stream plumbing is left out: `Limit`, `Rebase`, `MakeSeekable`, `Read<T>`, and the memory copy under CopyToMemory. `ObtainRecord` returns the byte window the limited stream exposes, because the serializer is not part of this model.
- The header decoders (`HeaderFactory.ReadHeader` and the WDB5 and WDBC header classes) are not part of this model. Their decoded fields are parameters.
- `StorageImpl.ExtractKey` and `PrepareMemberInfo` are not modelled; they only forward to the reader and to the member collection, which are not part of this model.
- Resource management, `Debug.Assert` (except the seekable-stream requirement, which is a precondition) and the stopwatch code paths are left out.
- Offsets that the source holds in `long` are unbounded integers. Products and sums the source computes in int32 wrap explicitly.

## Findings

| source | as written | input that shows it | evidently intended | confidence | as-written member | corrected member |
|---|---|---|---|---|---|---|
| DBClientFiles.NET/Parsing/File/Segments/Handlers/Implementations/OffsetMapHandler.cs:27 | the loop runs while position <= start + length, so it reads length / 6 + 1 entries into a buffer of length / 6, and Count (one decrement per dropped entry) ends one short | a 6-byte block at offset 1 holding (8, 12), followed by a zero entry: the store ends empty | read exactly length / 6 entries and keep the non-zero ones | not executed | OffsetMapHandler.AsWrittenDropsLastEntry | OffsetMapHandler.Handler.ReadBlock |
| DBClientFiles.NET/Parsing/File/Segments/Handlers/Implementations/OffsetMapHandler.cs:14 | the offset-map handler declares the identifier CopyTable | a WDB5 file with an offset map and a copy table: nothing is registered under OffsetMap, and the copy-table handler replaces the offset-map handler under CopyTable | the identifier OffsetMap | not executed | Wdb5FileParser.AsWrittenRegistryMissesOffsetMap | Wdb5FileParser.RegistryCoversChain |
| DBClientFiles.NET/Parsing/File/WDB5/Parser.cs:15 | RecordCount adds CopyTableLength / 2 | one record and one 8-byte copy entry: five records instead of two | one record per 8-byte copy-table entry, as the other generation's parser counts | not executed | Wdb5FileParser.AsWrittenOvercountsCopies | Wdb5FileParser.RecordCountCountsCopies |
| DBClientFiles.NET/Parsing/Enumerators/CopyTableEnumerator.cs:41-47 | a base record whose key has no copy entry leaves the copy cursor null and the record held, so every later call repeats the failed lookup and returns the same record again: the enumeration never moves on | base records with keys 1 and 2 and an empty copy table: record 1 on the first call, on the second, and on every call after | move on to the next base record | not executed | CopyTableEnumerator.AsWrittenRepeatsBase | CopyTableEnumerator.IntendedMovesOn |
| DBClientFiles.NET/Parsing/Enumerators/CopyTableEnumerator.cs:96 | Last applies the last copy key only when the lookup fails, and then passes the null copyKeys to LINQ's Last, which throws ArgumentNullException | one base record with key 5 and copies 105 and 205: the base record instead of the copy with key 205 | apply the last copy key when the lookup succeeds | not executed | CopyTableEnumerator.LastAsWrittenIgnoresCopies | CopyTableEnumerator.LastOfOutput |
