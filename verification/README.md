# Flash descriptor tools and i945 graphics init, verified

A Dafny model of two parts of libreboot, with proofs of what they promise.

**ich9deblob and ich9gen.** ich9deblob reads a factory ROM, overlays its first 4096 bytes on the bit
fields of the ICH9 flash descriptor and its GbE region on the 8 KiB GbE record, rewrites regions, access
rights and straps, repairs the GbE checksum, writes a new descriptor and GbE image, and prints C programs
that rebuild the two structs for any ROM size, with or without GbE.  Two such printed programs are shipped
with ich9gen, which builds images from them and can put in a MAC address.

**The i945 native graphics init.** A nested search over PLL divisors in 32-bit arithmetic, the register
words built from the result and from the panel's timings, and the graphics translation table filled
through an index and a data port.

## How it is built

| file | content |
|---|---|
| Words, Memory | 32-bit words, OR and shifts; struct memory as bits, reading and assigning bit fields; bytes and bits |
| HexText, EmittedC | printf and compiler on hexadecimal constants; the emitted C as syntax, meaning and in-place executor |
| StructLayout | layouts that tile a struct, the emitter over a layout, its padding loops, the code generation theorems |
| DescriptorLayout, Descriptor | the descriptor's members; the transformations, as methods against functions |
| DescriptorTheorems, FlashRegions | stability of the GbE test, idempotence; the regions as a partition of the ROM |
| DescriptorRegeneration, MkDescriptor | the descriptor emitter; the shipped program and its agreement with ich9deblob |
| Gbe, GbeLayout, GbeChecksum | checksum and repair; the GbE emitter and shipped program; why its checksum is right |
| ByteRoundTrip | files to structs and back |
| Ich9Deblob, Ich9Gen, Ich9GenFiles | the two programs as a whole |
| RomBytes, DescriptorBytes | ich9deblob from the result's side: outcomes and every byte of the image |
| GeneratedBytes, GbeWords, EmittedText | what the shipped programs return, in numbers; the text of printed constants |
| GmaDivisors, GmaTheorems | the divisor search; overflow, feasibility, error bound |
| GmaSettings, GmaLosses, GmaOptimality | the search against all settings of the PLL: where rounding loses, and exactly when the result is a nearest setting |
| GmaRegisters, GmaPanel | divisor and timing registers; from pixel clock to registers and back, in numbers |
| GmaGtt | the translation table |

A C struct is a string of bits in the ABI order the program itself checks for: the w-bit member declared
after n bits is bits n to n + w - 1, least significant first.  An emitted C function is a list of
statements run on memory that may hold anything.  By-value structs are values that methods reassign;
memory that emitted programs fill, the display registers and the translation table are arrays and objects
changed in place.

Where the code and its documentation differ, the model follows the code:

- `resources/utilities/ich9deblob/src/gbe/gbe.h:60-64` describes the checksum as a sum of 0x3F words; the code, and the
  comment at line 403, make words 0 to 0x3F, the checksum included, sum to 0xBABA.
- `resources/utilities/ich9deblob/src/ich9gen.c:55-61` promises to refuse invalid addresses; the separator loop never looks at
  position 14, so any character is accepted there (`Ich9Gen.AcceptedExactly`).
- `docs/resources/misc/dumps/5320_7c0000_gma.c:272-274` builds VSYNC without the shift that HSYNC has
  (`GmaRegisters.MergedDecodesExactly`, `GmaRegisters.VsyncAmbiguous`).
- `docs/resources/misc/dumps/5320_7c0000_gma.c:180-181` promises no overflow up to 5 GHz; that is true, and the exact bound
  is 7,669,477 kHz (`GmaTheorems.NoWrapExactly`).
- `resources/utilities/ich9deblob/src/descriptor/descriptor.c:296` promises C that initialises the same data; the
  densities are not kept but derived from the ROM size (`DescriptorRegeneration.ProgramRebuildsExactly`).

## Model

| member | source | states |
|---|---|---|
| Ich9Deblob.Deblob | resources/utilities/ich9deblob/src/ich9deblob.c:94-207 | the whole program, every test of the GbE region made anew, gives the result of DeblobRom for every ROM, both read errors included |
| RomBytes.Outcome | resources/utilities/ich9deblob/src/ich9deblob.c:94-181 | from the bytes of the ROM: each of the two errors exactly when the descriptor, or the GbE region at BASE << 12, is not in the ROM; otherwise 12 KiB and two programs if both straps are set and FLREG3 is no sentinel, else 4 KiB and one |
| RomBytes.GbeBytes | resources/utilities/ich9deblob/src/ich9deblob.c:103-175 | which ROM bytes become the GbE part of the image: both records have bytes 0 to 0x7D of the second record found at BASE << 12, words that sum to 0xBABA, and 0xFF to the end |
| DescriptorBytes.ImageBytes | resources/utilities/ich9deblob/src/ich9deblob.c:142-181 | every one of the first 4096 bytes of the image as a number, from the ROM byte at the same address, the GbE test and the last page |
| Ich9Deblob.DeblobIdempotent | resources/utilities/ich9deblob/src/ich9deblob.c:94-182 | end to end, on any ROM bytes: after a successful run the ROM with the image written over its start succeeds too, and gives the same image and programs if and only if the image fitted into the ROM |
| Ich9Deblob.SmallRomOutgrown | resources/utilities/ich9deblob/src/ich9deblob.c:103-125 | the image does not fit for every dump of 8 to 12 KiB with a GbE region at address 0, and there the second run differs |
| Ich9Deblob.ImageOutgrowsRom | resources/utilities/ich9deblob/src/ich9deblob.c:103-125 | such a dump exists: 8 KiB of zeros but for the two GbE straps |
| Ich9Deblob.ImageBits | resources/utilities/ich9deblob/src/ich9deblob.c:142-181 | bit-exact frame of the output: the first 4 KiB are the ROM's with exactly the touched bits moved to their targets |
| Ich9Deblob.ProgramsRebuildImage | resources/utilities/ich9deblob/src/ich9deblob.c:169-207 | compiling both printed programs and calling them with the ROM's size and GbE flag, on any memory, gives the image again; only the density byte 0x10 may differ, and it agrees if and only if the factory densities were those of the ROM size |
| Ich9Deblob.InstalledRuns | resources/utilities/ich9deblob/src/ich9deblob.c:103-121 | the region read back at BASE << 12 of a written image is the one that was written there |
| Descriptor.HostRegionsUnlocked | resources/utilities/ich9deblob/src/descriptor/descriptor.c:36-50 | the ten assignments amount to setting every access bit of FLMSTR1 and nothing else |
| Descriptor.MeRegionsForbidden | resources/utilities/ich9deblob/src/descriptor/descriptor.c:53-67 | the ten assignments amount to clearing every access bit of FLMSTR2 and nothing else |
| Descriptor.OemString | resources/utilities/ich9deblob/src/descriptor/descriptor.c:141-153 | the eight bytes become LIBERATE and nothing else changes |
| Descriptor.LibrebootSetGbeBiosRegions | resources/utilities/ich9deblob/src/descriptor/descriptor.c:177-212 | bit by bit, on both branches: NR, BASE and LIMIT of FLREG1 and FLREG3 and the two straps get their targets for the answer of the GbE test, every other bit is the factory one |
| Descriptor.LibrebootStructFromFactory | resources/utilities/ich9deblob/src/descriptor/descriptor.c:231-247 | bit by bit: besides these, FLREG2, FLREG4 and the ME and TPM straps get their targets, every other bit is the factory one |
| Descriptor.DeblobbedIsImage | resources/utilities/ich9deblob/src/ich9deblob.c:142-152 | frame: the whole pipeline equals one pointwise picture, in which every bit outside the named registers, reserved bits included, is the factory's |
| DescriptorTheorems.GbeTestStable | resources/utilities/ich9deblob/src/descriptor/descriptor.c:157-173 | after any number of pipeline steps the GbE test answers as for the factory descriptor, sentinels and mixed straps included |
| DescriptorTheorems.LastState | resources/utilities/ich9deblob/src/ich9deblob.c:142-152 | the eight steps of that run are exactly the pipeline |
| DescriptorTheorems.ImageRegion | resources/utilities/ich9deblob/src/descriptor/descriptor.c:70-138 | what BASE and LIMIT of regions 1 to 4 read after the run, LIMIT cut to 13 bits |
| DescriptorTheorems.DeblobAgain | resources/utilities/ich9deblob/src/ich9deblob.c:142-152 | running the descriptor pipeline again, on any other ROM size, forgets the first run |
| DescriptorTheorems.FixedPoint | resources/utilities/ich9deblob/src/ich9deblob.c:142-152 | a descriptor is left alone if and only if its touched bits are at their targets |
| FlashRegions.PartitionExactly | resources/utilities/ich9deblob/src/descriptor/descriptor.c:105-138 | for any factory descriptor and ROM size every ROM byte lies in exactly one region if and only if FLREG0 and the size are well placed: [0, 0] and whole pages up to 32 MiB, with the exact exceptions for images that end within the first three pages |
| FlashRegions.NumberOfRegions | resources/utilities/ich9deblob/src/descriptor/descriptor.c:182-200 | for any factory descriptor and ROM size NR + 1 counts the non-empty regions if and only if FLREG0 and the BIOS region are not empty |
| FlashRegions.BiosEmpty | resources/utilities/ich9deblob/src/descriptor/descriptor.c:123-138 | the BIOS region is empty exactly for images that end before its first page, the 13-bit LIMIT wrapping around at 32 MiB |
| EmittedC.DensityCode | resources/utilities/ich9deblob/src/descriptor/descriptor.c:214-227 | codes 0 to 5 stand for exactly 512 KiB times 2 to the code, 7 for exactly the other sizes, and 6 is never returned |
| HexText.ParseOfPrint | resources/utilities/ich9deblob/src/descriptor/descriptor.c:322-577 | a constant printed in hexadecimal with any minimum width reads back as itself; the width never truncates |
| HexText.PrintHexShape | resources/utilities/ich9deblob/src/descriptor/descriptor.c:322-577 | a number that fits its digits is printed as 0x and exactly that many lower-case digits |
| EmittedText.AllFullWidth | resources/utilities/ich9deblob/src/descriptor/descriptor.c:322-584 | every constant member of the descriptor and of the GbE record is printed with one digit for each four bits or part of four |
| EmittedText.ConstantText | resources/utilities/ich9deblob/src/descriptor/descriptor.c:322-584 | so the text of such a member always has the same length, whatever its value |
| EmittedC.Execute | resources/utilities/ich9deblob/src/ich9gen/mkdescriptor.c:23-228 | running an emitted body in place on the struct memory computes Run |
| EmittedC.RunBuilds | resources/utilities/ich9deblob/src/ich9gen/mkdescriptor.c:23-228 | a program that assigns every member once builds t, from any uninitialised memory, if and only if every statement holds in t |
| EmittedC.RunIgnoresMemory | resources/utilities/ich9deblob/src/ich9gen/mkdescriptor.c:25-26 | the uninitialised local variable never shows in the result |
| StructLayout.WritePaddingByScan | resources/utilities/ich9deblob/src/descriptor/descriptor.c:412-424 | the scan loop prints one fill loop if all bytes are 0xFF, else every byte |
| StructLayout.PaddingIdentical | resources/utilities/ich9deblob/src/gbe/gbe.c:384-390 | the flag is true exactly for an array of 0xFF bytes |
| StructLayout.WritePaddingByFlag | resources/utilities/ich9deblob/src/gbe/gbe.c:383-401 | the two-pass form prints the same lines as the scan |
| StructLayout.Regeneration | resources/utilities/ich9deblob/src/descriptor/descriptor.c:296-609 | code generation keeps the meaning: the program printed for d builds t, for any arguments from any memory, if and only if t has the members of d and the values of the expressions in the derived members |
| StructLayout.SelfReproduction | resources/utilities/ich9deblob/src/ich9gen/mkdescriptor.c:23-228 | a program written for a layout is what the emitter prints from its own result |
| DescriptorLayout.DescriptorTiles | resources/utilities/ich9deblob/src/descriptor/descriptor.h:72-306 | the members and padding arrays fill the 4096 bytes without gap or overlap |
| DescriptorLayout.DerivedMembers | resources/utilities/ich9deblob/src/descriptor/descriptor.c:331-496 | exactly nine members are printed as expressions in romSize and hasGbe |
| StructLayout.WriteMembers | resources/utilities/ich9deblob/src/descriptor/descriptor.c:320-344 | a line for each member in order: its value in hexadecimal with its digits, or its expression |
| DescriptorRegeneration.WriteDescriptorProgram | resources/utilities/ich9deblob/src/descriptor/descriptor.c:320-600 | section by section, members and then padding loop, the printing code writes DescriptorProgram |
| DescriptorRegeneration.RebuiltExactly | resources/utilities/ich9deblob/src/descriptor/descriptor.c:296-609 | for any descriptor: its program rebuilds it if and only if NR, the densities, FLREG1, FLREG3 and the two straps match the arguments |
| DescriptorRegeneration.ProgramRetargets | resources/utilities/ich9deblob/src/descriptor/descriptor.c:332-496 | the program printed for one ROM size, called for any other size with or without GbE, returns the descriptor the pipeline would have made, with the density of that size |
| DescriptorRegeneration.ProgramRebuilds | resources/utilities/ich9deblob/src/ich9deblob.c:188-195 | for the ROM's own arguments the program returns the written descriptor, densities apart |
| DescriptorRegeneration.ProgramRebuildsExactly | resources/utilities/ich9deblob/src/ich9deblob.c:188-195 | and exactly it if and only if the factory densities were those of the ROM size |
| DescriptorRegeneration.DemefactoryProgram | resources/utilities/ich9deblob/src/demefactory.c:100-136 | demefactory's program is right if and only if the factory members already matched; with all five regions (NR = 4) it never is |
| DescriptorBytes.DemedByte | resources/utilities/ich9deblob/src/demefactory.c:100-108 | demefactory changes six bytes, each to the stated number, and no other |
| MkDescriptor.ShippedWritten | resources/utilities/ich9deblob/src/ich9gen/mkdescriptor.c:28-225 | the shipped lines assign the layout's members in order with the emitter's digits and expressions, no constant too wide |
| MkDescriptor.GeneratedDescriptorStruct | resources/utilities/ich9deblob/src/ich9gen/mkdescriptor.c:23-228 | the shipped program run in place on its uninitialised struct |
| GeneratedBytes.HeadRegisters | resources/utilities/ich9deblob/src/ich9gen/mkdescriptor.c:28-66 | what it returns, for all arguments: signature, map and component registers as 32-bit numbers |
| GeneratedBytes.RegionRegisters | resources/utilities/ich9deblob/src/ich9gen/mkdescriptor.c:72-97 | the five region registers as numbers |
| GeneratedBytes.MasterAndStrapRegisters | resources/utilities/ich9deblob/src/ich9gen/mkdescriptor.c:103-188 | the master access and strap registers as numbers |
| GeneratedBytes.RearRegisters | resources/utilities/ich9deblob/src/ich9gen/mkdescriptor.c:194-221 | the VSCC table, its map and the OEM string as numbers |
| GeneratedBytes.GeneratedFill | resources/utilities/ich9deblob/src/ich9gen/mkdescriptor.c:67-225 | every byte outside these registers is 0xFF |
| GeneratedBytes.LengthsCoverSections | resources/utilities/ich9deblob/src/ich9gen/mkdescriptor.c:28-208 | ISL, MSL and the VSCC table length, times 32 bits, are the widths of their sections, and the signature is 0x0FF0A55A |
| GeneratedBytes.GbeMasterAccess | resources/utilities/ich9deblob/src/ich9gen/mkdescriptor.c:132-145 | the GbE master, requester 0x0218, may read and write the GbE region and no other |
| MkDescriptor.ShippedReproducesItself | resources/utilities/ich9deblob/src/ich9gen/mkdescriptor.c:23-228 | printing the generated descriptor gives mkdescriptor.c back, for all arguments |
| MkDescriptor.PrintedGeneratorGenerates | resources/utilities/ich9deblob/src/ich9gen/mkdescriptor.c:23-228 | self-reproduction: print the struct of (r, g), run it on (r', g'), and get the struct of (r', g') |
| MkDescriptor.GeneratedIsFixedPoint | resources/utilities/ich9deblob/src/ich9deblob.c:142-152 | two code paths agree: for every romSize and hasGbe the generated descriptor is a fixed point of the ich9deblob pipeline |
| MkDescriptor.GeneratedDefinesGbe | resources/utilities/ich9deblob/src/ich9gen/mkdescriptor.c:88-160 | the GbE test says of a generated descriptor what hasGbe says |
| MkDescriptor.GeneratedPartitions | resources/utilities/ich9deblob/src/ich9gen/mkdescriptor.c:73-97 | for every size and flag the generated regions partition the image if and only if it is whole pages up to 32 MiB, shorter than a page, or, with GbE, shorter than three pages |
| MkDescriptor.PointersReachSections | resources/utilities/ich9deblob/src/ich9gen/mkdescriptor.c:33-207 | FCBA, FRBA, FMBA, FISBA, FMSBA and the VSCC base, times 16, are the addresses of their sections |
| ByteRoundTrip.FileReturns | resources/utilities/ich9deblob/src/descriptor/descriptor.h:294-306 | every 4096-byte descriptor and GbE block survives the way through its struct |
| ByteRoundTrip.ValuesReturn | resources/utilities/ich9deblob/src/descriptor/descriptor.h:72-306 | member values that fit survive the way through the file |
| ByteRoundTrip.FlMap0Bytes | resources/utilities/ich9deblob/src/descriptor/descriptor.h:83-93 | each byte of FLMAP0 in terms of its members |
| ByteRoundTrip.FlMap0Vector | resources/utilities/ich9deblob/src/common/x86compatibility.c:117-134 | the vector of the start-up check: A2 E2 D2 E5 |
| StructLayout.UnpackOfPack | resources/utilities/ich9deblob/src/descriptor/descriptor.h:72-306 | pack then unpack is the identity on values that fit |
| StructLayout.PackOfUnpack | resources/utilities/ich9deblob/src/descriptor/descriptor.h:72-306 | unpack then pack is the identity on memory |
| Gbe.GetChecksumFrom4kBuffer | resources/utilities/ich9deblob/src/gbe/gbe.c:36-45 | the 16-bit accumulator returns the value that, added to words 0 to 0x3E from the base, gives the desired value modulo 2^16 |
| Gbe.ChecksumUnique | resources/utilities/ich9deblob/src/gbe/gbe.c:36-51 | storing v in word 0x3F makes the record valid if and only if v is the value computed |
| Gbe.DeblobbedGbeStructFromFactory | resources/utilities/ich9deblob/src/gbe/gbe.c:54-74 | the padding loop, the checksum and the copy give Deblobbed8K |
| Gbe.Deblobbed8KIs | resources/utilities/ich9deblob/src/gbe/gbe.c:54-74 | complete characterisation: equal halves, valid checksum, padding all 0xFF, words 0 to 0x3E those of the factory backup; and only one region is like that |
| Gbe.Deblobbed8KAgain | resources/utilities/ich9deblob/src/gbe/gbe.c:54-74 | repairing is idempotent |
| GbeLayout.GbeTiles | resources/utilities/ich9deblob/src/gbe/gbe.h:295-407 | the members of the GbE record fill its 4096 bytes without gap or overlap |
| GbeLayout.WriteRecordProgram | resources/utilities/ich9deblob/src/gbe/gbe.c:147-404 | members, then padding by the flag: the printing code writes RecordProgram |
| GbeLayout.RecordRebuilt | resources/utilities/ich9deblob/src/gbe/gbe.c:126-419 | full inverse: for every record the printed program rebuilds it bit for bit from any memory |
| GbeLayout.RegionRebuilt | resources/utilities/ich9deblob/src/gbe/gbe.c:406-412 | the 8 KiB program rebuilds a region if and only if its halves agree |
| GbeLayout.GeneratedGbeStruct8k | resources/utilities/ich9deblob/src/ich9gen/mkgbe.c:250-256 | the shipped GbE program in place: both halves hold the generated record |
| GbeWords.GeneratedWords | resources/utilities/ich9deblob/src/ich9gen/mkgbe.c:28-245 | all 2048 words of the generated record as numbers: the documented device IDs and reserved words, the words assembled from bit fields, the checksum, and 0xFFFF after word 3F |
| GbeWords.GeneratedRecordIs | resources/utilities/ich9deblob/src/ich9gen/mkgbe.c:23-248 | the generated record is the record of these words, bit for bit |
| GbeLayout.ShippedGbeReproducesItself | resources/utilities/ich9deblob/src/ich9gen/mkgbe.c:23-248 | printing the generated record gives mkgbe.c back |
| GbeChecksum.SumOfWords | resources/utilities/ich9deblob/src/ich9gen/mkgbe.c:28-240 | the 64 words of the generated record, checksum included, add up to the stated number, which is 0xBABA modulo 2^16 |
| GbeChecksum.ShippedRecordValid | resources/utilities/ich9deblob/src/ich9gen/mkgbe.c:240-245 | the shipped checksum 0x348a is right, and ich9deblob leaves the shipped record alone |
| Ich9Gen.ParseByte | resources/utilities/ich9deblob/src/ich9gen.c:73-87 | the nibble loop: zeroing and OR-ing in two digits stores 16 * high + low, or fails on the first non-digit |
| Ich9Gen.SetMacAddress | resources/utilities/ich9deblob/src/ich9gen.c:62-88 | length, separators and digits in the order of the code, each with its own error |
| Ich9Gen.AcceptedExactly | resources/utilities/ich9deblob/src/ich9gen.c:62-88 | the accepted strings position by position; position 14 is never checked |
| Ich9Gen.RefusedExactly | resources/utilities/ich9deblob/src/ich9gen.c:53-88 | for every command line: no file exactly when an address is asked for that does not fit, and for which strings each of the three errors comes; without an address the shipped record |
| Ich9Gen.AddressWritten | resources/utilities/ich9deblob/src/ich9gen.c:72-91 | for every accepted string: two digits a byte, the higher one first, in both records, and mkgbe.c is printed anew |
| Ich9Gen.MacRoundTrip | resources/utilities/ich9deblob/src/ich9gen.c:72-88 | every address survives printing, in any mix of cases, and parsing; so it does with any character at position 14 |
| Ich9Gen.WithMacReads | resources/utilities/ich9deblob/src/ich9gen.c:72-88 | an address written is read back, and no bit after it changes |
| Ich9Gen.GenerateGbe | resources/utilities/ich9deblob/src/ich9gen.c:27-109 | for any command line the GbE region that is written, and mkgbe.c if it is printed anew |
| Ich9Gen.ProgramRebuildsRegion | resources/utilities/ich9deblob/src/ich9gen.c:93-101 | the mkgbe.c in force afterwards, printed anew or shipped, rebuilds the region in the files |
| Ich9Gen.GeneratedGbeIsStable | resources/utilities/ich9deblob/src/ich9gen.c:53-109 | whenever files are written the halves agree and are valid, settings after the address are the shipped ones, and ich9deblob would not change the region |
| Ich9Gen.GeneratedGbeHasMac | resources/utilities/ich9deblob/src/ich9gen.c:60-91 | the requested address is in both halves of the file |
| Ich9Gen.DeblobKeepsGeneratedImage | resources/utilities/ich9deblob/src/ich9gen.c:117-123 | the two tools agree on bytes: a ROM that starts with ich9gen's 12 KiB for its size, with any accepted address, comes out of ich9deblob with the same 12 KiB, with mkdescriptor.c as shipped and with the mkgbe.c that ich9gen printed, or the shipped one |
| Ich9Gen.DeblobKeepsGeneratedDescriptor | resources/utilities/ich9deblob/src/ich9gen.c:125-140 | the same for the 4 KiB image without GbE |
| Ich9GenFiles.GenerateFiles | resources/utilities/ich9deblob/src/ich9gen.c:23-140 | the whole program: its four files for any command line |
| Ich9GenFiles.WrittenExactly | resources/utilities/ich9deblob/src/ich9gen.c:53-140 | when files are written, and that they have 12 and 4 KiB |
| Ich9GenFiles.FilesKept | resources/utilities/ich9deblob/src/ich9gen.c:117-138 | each of the four files, at the start of a 4 or 8 MiB ROM, is what ich9deblob writes for that ROM |
| Ich9GenFiles.FilesHaveAddress | resources/utilities/ich9deblob/src/ich9gen.c:72-123 | the requested address, digit by digit, at the start of both records of both GbE files |
| GmaDivisors.FindDivisors | docs/resources/misc/dumps/5320_7c0000_gma.c:171-207 | the nested loops in 32-bit arithmetic: NotFound if and only if no point is accepted; otherwise the lexicographically first point of least delta, with its m split |
| GmaTheorems.NoWrapExactly | docs/resources/misc/dumps/5320_7c0000_gma.c:179-183 | no operation of the search wraps if and only if the clock is at most 7,669,477 kHz; the comment promises 5,000,000 |
| GmaTheorems.WrapCounterexample | docs/resources/misc/dumps/5320_7c0000_gma.c:179-183 | at 7,685,978 kHz a point is accepted that misses by more than 7 GHz |
| GmaTheorems.AcceptedInterval | docs/resources/misc/dumps/5320_7c0000_gma.c:182-186 | for every clock: a point is accepted if and only if clock times denominator, cut to 32 bits, is in 9180000 to 15779999 |
| GmaTheorems.FeasibleExactly | docs/resources/misc/dumps/5320_7c0000_gma.c:171-207 | for every clock: divisors are found if and only if it is from 16,393 to 450,857 kHz or in an alias band, where a product has wrapped around; all other clocks are refused |
| GmaTheorems.FirstAlias | docs/resources/misc/dumps/5320_7c0000_gma.c:179-183 | the lowest alias is 7,685,978 kHz |
| GmaTheorems.FoundError | docs/resources/misc/dumps/5320_7c0000_gma.c:182-193 | delta * denom < 60000 + denom for every accepted point |
| GmaTheorems.TiesBroken | docs/resources/misc/dumps/5320_7c0000_gma.c:171-202 | of the accepted points of least delta the one of smallest P1, and then of smallest N |
| GmaTheorems.SmallestP1 | docs/resources/misc/dumps/5320_7c0000_gma.c:171-202 | a product N * P1 that several points share is set with the smallest P1 |
| GmaSettings.LocalLossExactly | docs/resources/misc/dumps/5320_7c0000_gma.c:182-193 | at one denominator: where the rounded m is the lower one, the next m is nearer if and only if its distance, rounded down, is below the other one, rounded up; where it is the upper one it never loses |
| GmaOptimality.SearchNearOptimal | docs/resources/misc/dumps/5320_7c0000_gma.c:172-202 | against every P1, N and m in 77..131, not only the rounded m, the result loses at most 1 kHz |
| GmaOptimality.OptimalExactly | docs/resources/misc/dumps/5320_7c0000_gma.c:172-202 | for every clock served below the alias bands: no setting of the whole PLL is nearer than the result, if and only if the clock is none of 258214, 275357, 292653, 378857, 402857 and 426857 kHz |
| GmaOptimality.EdidClockOptimal | docs/resources/misc/dumps/5320_7c0000_gma.c:168-202 | so every clock in units of 10 kHz, as an EDID gives it, is served optimally |
| GmaLosses.LossTable | docs/resources/misc/dumps/5320_7c0000_gma.c:182-193 | product by product: where the next m is nearer at the largest accepted product, another point of the search makes up for it, except at the six clocks |
| GmaOptimality.LostSetting | docs/resources/misc/dumps/5320_7c0000_gma.c:182-193 | at each of the six clocks a setting that is nearer than every accepted point |
| GmaOptimality.OffByOneExample | docs/resources/misc/dumps/5320_7c0000_gma.c:182-193 | at 378,857 kHz only (1, 5) is accepted, with m = 110, and m = 111 is nearer |
| GmaRegisters.SplitOfM | docs/resources/misc/dumps/5320_7c0000_gma.c:198-199 | for every m in 77..131: M2 in 7..11, M1 in 14..24, M1 > M2 and 5 * M1 + M2 = m |
| GmaRegisters.SplitUnique | docs/resources/misc/dumps/5320_7c0000_gma.c:198-199 | there is no other split with M2 in that range |
| GmaRegisters.DivisorWordDecodes | docs/resources/misc/dumps/5320_7c0000_gma.c:235-237 | the fields of FP0 do not overlap and decode to N, M1 and M2 |
| GmaRegisters.PrintedClockIs | docs/resources/misc/dumps/5320_7c0000_gma.c:191-227 | the printed clock, rounded down twice, is the clock of the search, rounded down once |
| GmaRegisters.PairExactly | docs/resources/misc/dumps/5320_7c0000_gma.c:258-276 | a two-field timing word decodes to its two numbers if and only if both are in 1..65536 |
| GmaRegisters.TimingOrder | docs/resources/misc/dumps/5320_7c0000_gma.c:258-276 | active <= blank start <= sync start <= sync end <= total, all within a field, for timings that fit |
| GmaRegisters.MergedDecodesExactly | docs/resources/misc/dumps/5320_7c0000_gma.c:272-274 | for any two numbers VSYNC as written, without the shift, decodes to them if and only if the pulse ends at line 1 and its start fits the field |
| GmaRegisters.VsyncNeverDecodes | docs/resources/misc/dumps/5320_7c0000_gma.c:272-274 | for a real panel the high half of VSYNC is 0 and its sync end is lost |
| GmaRegisters.VsyncAmbiguous | docs/resources/misc/dumps/5320_7c0000_gma.c:272-274 | two different vertical sync pulses give the same VSYNC |
| GmaRegisters.ControlWordShows | docs/resources/misc/dumps/5320_7c0000_gma.c:238-256 | where the mode bits leave room, P1 reads back from both of its places in the PLL control word |
| GmaPanel.ClockReadsBack | docs/resources/misc/dumps/5320_7c0000_gma.c:235-256 | after the mode setting FP0 and DPLL are the stated numbers, P1 stands in both its places, and the clock decoded from the two words alone misses the target by exactly the least delta |
| GmaPanel.HorizontalWords | docs/resources/misc/dumps/5320_7c0000_gma.c:258-266 | the horizontal timing registers as numbers, in the terms of the EDID |
| GmaPanel.VerticalWords | docs/resources/misc/dumps/5320_7c0000_gma.c:268-274 | the vertical ones; VSYNC below 65536 with a bit set where either of its two numbers has it |
| GmaPanel.PlaneWords | docs/resources/misc/dumps/5320_7c0000_gma.c:276-288 | source and plane size as numbers, plane position 0, and the panel fitter off |
| GmaRegisters.Display.SetMode | docs/resources/misc/dumps/5320_7c0000_gma.c:235-288 | the register writes after the search in their order, with every sum cut to 32 bits |
| GmaPanel.SetPanel | docs/resources/misc/dumps/5320_7c0000_gma.c:168-288 | search and mode setting in the pixel clock: below the alias bands a single-channel panel is served exactly for 8,197 to 225,428 kHz and a dual-channel one for 16,393 to 450,857; on success the registers hold the best clock for twice the pixel clock, or for the pixel clock, and a nearest one of the PLL unless it is one of the six; registers unchanged on failure |
| GmaRegisters.DivisorsRead | docs/resources/misc/dumps/5320_7c0000_gma.c:171-237 | from the written FP0 word back to divisors whose clock misses the target by exactly the least delta |
| GmaRegisters.TimingsRead | docs/resources/misc/dumps/5320_7c0000_gma.c:258-288 | all timing registers of a fitting panel read back, VSYNC excepted |
| GmaGtt.Gtt.SetupTable | docs/resources/misc/dumps/5320_7c0000_gma.c:370-375 | the index and data writes fill entries 0 to 0x1FFF with base + 0x20001 + 4096 * i, keep all others, and for a page-aligned base every address below 32 MiB translates to base + 0x20000 + address |
| GmaGtt.LinearExactly | docs/resources/misc/dumps/5320_7c0000_gma.c:370-375 | every address below 32 MiB translates to base plus address with the valid bit, if and only if the base is page-aligned |
| GmaGtt.AlignedEntry | docs/resources/misc/dumps/5320_7c0000_gma.c:374-374 | on an aligned base the + 1 never carries |
| GmaGtt.EntriesDistinct | docs/resources/misc/dumps/5320_7c0000_gma.c:374-374 | on any base all entries differ |
| GmaGtt.LinearInjective | docs/resources/misc/dumps/5320_7c0000_gma.c:370-375 | a linear table maps no two graphics addresses to one memory address |

## Left out

- GmaOptimality.OptimalExactly: is about the clocks of the PLL's range; in the alias bands above it the clock found is far off, and no closeness is claimed.
- DescriptorRegeneration.WriteDescriptorProgram: prints the straight-line lines of a section in a loop over the table of its members, where the source has one statement a line; the padding loops are the loops of the code.
- GbeLayout.WriteRecordProgram: prints its straight-line lines in a loop over the table of the members, likewise.
- GmaGtt.Gtt.SetupTable: assumes that an index with bit 0 set selects entry index / 4 for the next data write; the source relies on it without saying so.
- File handling: a file is a byte sequence; opening, removing and writing do not fail, and short reads are the two errors of DeblobRom.
- Comments, blank lines, includes, headers and the return statement of emitted C, and the two header emitters: they have no effect on the struct.
- Debug printing of region boundaries and checksums.
- The start-up check of compiler and endianness in x86compatibility.c, beyond its FLMAP0 vector: the model is of the ABI it accepts.
- demefactory's own file reading: only its transformations and its printed program appear.
- In the graphics init: EDID decoding, PCI access, delays, polling loops, palette, the register writes outside lines 235-288, and the constant added to the GTT base.
- i915.h is not part of this model; registers are names, FP0 is read in its three 6-bit fields, and the mode bits of the PLL control word are parameters.
- The backlight tools, shell scripts, documentation and patches.
