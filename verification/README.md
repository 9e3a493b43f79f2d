# A verified model of the Darknet importer and the extension generator

This project models the algorithms of two parts of the DeepStream tree: the Darknet importer with its
output decoding and INT8 calibration (`sources/DeepStream-Yolo`, `sources/tracker_ReID`), and the
generator of graph extensions (`tools/graph_extension_generator`). `dafny verify dfyconfig.toml` checks it.

## How it is organised

- `Text`, `Numbers`: trimming, splitting and reading numbers.
- `CfgParser`, `CfgWriter`: the cfg format, from text to blocks and back.
- `YoloTypes`, `HeadScan`: layer kinds, and the first pass over the blocks, which counts detection heads.
- `NetworkBuilder`, `LayerNumbers`, `HeadAgreement`: the second pass. A block is decoded to an instruction;
  the instructions move the state of the build. A failed assert or an exception is a rejected block. The
  theorems are about every accepted prefix of every cfg.
- `BlockRules`: what each kind of block does and when it is accepted, by its keys and type names.
- `OutputLayout`, `KernelReads`: the size of the output, and the addresses that the threads of the decoding kernels
  write and read.
- `Bytes`, `WeightsFile`, `YoloPlugin`: the weights file, and storing the plugin in an engine file.
- `Yolo`: class `Yolo` with the fields and methods of the importer, tied to the specifications above.
- `Examples`: small cfgs at which the importer does something else than what their author means.
- `BBoxDecode`: from the output to boxes, on the CPU and in CUDA.
- `Digits`, `BatchCursor`, `Calibrator`, `PrepareImage`: the calibrators, their buffers and the image layout.
- `Template`, `Registration`, `Definition`, `DefinitionFill`, `DefinitionRuns`, `Generator`,
  `PluginGroups`: the extension generator.

Words are integers from 0 to 2^32 - 1 and every wrap-around is written out. Layer functions, the conversion
of text to float, image reading, the plugin registry and random numbers are parameters.

## What the code does not do

Each of these is stated with the exact condition under which the code does what is expected.

- A dropout block pushes no tensor. After a `[net]`, a skip connection behind a dropout is always rejected
  (`SkipAfterNet`). Without one, a single dropout is let through and the connection may read another layer
  (`SkipNames`, `ShortcutAfterDropout`, `LeadingDropout`), and with no dropout an offset reaches one layer too far
  (`OffsetWithoutNet`, `OffsetOneTooFar`). A route after a dropout may silently name another layer (`RouteAbsolute`,
  `RouteRelative`, `RouteAfterDropout`).
- A second `createEngine` on the same object adds to the head count, and fails whenever the first one succeeded
  (`UsedObjectDisagrees`, `ImportTwice`, `TinyTwice`).
- The product of boxes and grid sides wraps at 2^32 (`SizeExact`, `SizeWraps`), the indices that the kernels write
  overflow beyond 2^31 values (`AddressesExact`), and record indices wrap beyond 715827882 records (`IndicesExact`),
  in the CUDA version beyond 357913941 (`CudaIndicesExact`).
- Nothing compares the mask of a head with its anchors, or its boxes with the input tensor; the kernels' reads stay
  inside exactly under `MaskReadsFit` and `ReadsFit` (`InputTooSmall` and `MaskBeyondAnchors` are cfgs that are accepted).
- An incomplete entry of an ignored signal is completed in memory, but the early return skips the write; when it
  is the last change of a run the file stays behind (`SavedExactly`, `UnsavedRun`).
- In the chains that fill in parameter registrations and run-time controls, the description and the nick are
  followed by more replacements. A description that holds one of their tokens is rewritten
  (`DescriptionExact`, `MandatoryExact`, `ControlExact`, `DescriptionRewritten`), and so is a nick that holds the
  default's (`NickExact`). With values that hold '<' themselves it may happen to come back
  (`DescriptionRestored`).

## Model

| member | source | states |
|---|---|---|
| Text.TrimInPlace | sources/DeepStream-Yolo/nvdsinfer_custom_impl_Yolo/utils.cpp:32-50 | the two erasing trims leave exactly Trim of the string |
| Text.TrimUnique | sources/DeepStream-Yolo/nvdsinfer_custom_impl_Yolo/utils.cpp:32-50 | trim returns the only trimmed string that the argument is a padding of |
| Text.TrimSplits | sources/DeepStream-Yolo/nvdsinfer_custom_impl_Yolo/utils.cpp:32-50 | every string is padding, its trim, padding |
| Text.Spaces | sources/DeepStream-Yolo/nvdsinfer_custom_impl_Yolo/utils.cpp:32-50 | the six characters that are trimmed |
| Text.PiecesRejoin | sources/DeepStream-Yolo/nvdsinfer_custom_impl_Yolo/yolo.cpp:586-598 | the erase loops over a list lose nothing: pieces hold no separator and rejoin to the text, save for one separator at its end |
| Text.PiecesOfJoin | sources/DeepStream-Yolo/nvdsinfer_custom_impl_Yolo/yolo.cpp:586-598 | separator-free pieces that were joined are the pieces the loops visit |
| Text.PiecesOfTerminated | sources/DeepStream-Yolo/nvdsinfer_custom_impl_Yolo/yolo.cpp:521 | lines written one by one are the lines getline returns |
| Numbers.ScanShow | sources/DeepStream-Yolo/nvdsinfer_custom_impl_Yolo/yolo.cpp:340 | a written integer is read back by stoi and stoul, whatever non-digit text follows |
| Numbers.ScanSigned | sources/DeepStream-Yolo/nvdsinfer_custom_impl_Yolo/yolo.cpp:340 | padding, a sign, digits and any text behind them are read as the number |
| Numbers.ScanNothing | sources/DeepStream-Yolo/nvdsinfer_custom_impl_Yolo/yolo.cpp:340 | without a digit behind padding and sign nothing is read |
| Numbers.StoiExact | sources/DeepStream-Yolo/nvdsinfer_custom_impl_Yolo/yolo.cpp:340 | stoi reads a written integer exactly when it is an int |
| Numbers.StoulExact | sources/DeepStream-Yolo/nvdsinfer_custom_impl_Yolo/yolo.cpp:605 | stoul reads a written integer of 64 bits, a negative one modulo 2^64, and no other |
| Numbers.StoulShow | sources/DeepStream-Yolo/nvdsinfer_custom_impl_Yolo/yolo.cpp:605 | stoul of the trimmed text of a 64-bit number is the number |
| Numbers.StoiShow | sources/DeepStream-Yolo/nvdsinfer_custom_impl_Yolo/yolo.cpp:340 | stoi of the text of an int is the int |
| CfgParser.GetLine | sources/DeepStream-Yolo/nvdsinfer_custom_impl_Yolo/yolo.cpp:521 | getline takes the first of the remaining lines |
| CfgWriter.AssignMeans | sources/DeepStream-Yolo/nvdsinfer_custom_impl_Yolo/yolo.cpp:537-540 | a trimmed line of key, padding, equals sign and text means that key with the trimmed text |
| CfgWriter.NoEqualsMeans | sources/DeepStream-Yolo/nvdsinfer_custom_impl_Yolo/yolo.cpp:537-540 | a trimmed line without an equals sign is a key that maps to itself |
| CfgParser.ParseConfigFile | sources/DeepStream-Yolo/nvdsinfer_custom_impl_Yolo/yolo.cpp:511-546 | the loop returns the blocks of the statements of the text |
| CfgParser.BlockCount | sources/DeepStream-Yolo/nvdsinfer_custom_impl_Yolo/yolo.cpp:527-531 | the number of blocks is the number of headers, plus one if an assignment comes first, and at least one |
| CfgParser.HeaderBlock | sources/DeepStream-Yolo/nvdsinfer_custom_impl_Yolo/yolo.cpp:527-541 | for every header of every file: the type of its block is the header text even if type= follows, any other key has its first assignment in the section or is absent |
| CfgParser.LeadingBlock | sources/DeepStream-Yolo/nvdsinfer_custom_impl_Yolo/yolo.cpp:536-541 | assignments before any header form the first block, each key with its first value, type included |
| CfgWriter.HeadLineMeans | sources/DeepStream-Yolo/nvdsinfer_custom_impl_Yolo/yolo.cpp:526-534 | a padded header line means its trimmed name |
| CfgWriter.HeaderCut | sources/DeepStream-Yolo/nvdsinfer_custom_impl_Yolo/yolo.cpp:532-534 | the last character of a header line is dropped, whatever it is |
| CfgWriter.EntryLineMeans | sources/DeepStream-Yolo/nvdsinfer_custom_impl_Yolo/yolo.cpp:526-540 | a line with padding around key, equals sign and value means that key and value |
| CfgWriter.RoundTrip | sources/DeepStream-Yolo/nvdsinfer_custom_impl_Yolo/yolo.cpp:511-546 | a document that writes some sections with any comments, blank lines and padding, with or without an end of line after its last line, is parsed to the blocks of those sections |
| CfgWriter.PlainRoundTrip | sources/DeepStream-Yolo/nvdsinfer_custom_impl_Yolo/yolo.cpp:511-546 | sections written as header and key=value lines are parsed back |
| HeadScan.ReadList | sources/DeepStream-Yolo/nvdsinfer_custom_impl_Yolo/yolo.cpp:585-614 | the list loop terminates and reads every piece, or rejects when one piece is rejected |
| HeadScan.ReadAllExactly | sources/DeepStream-Yolo/nvdsinfer_custom_impl_Yolo/yolo.cpp:585-614 | a list is read exactly when each of its pieces is, value by value |
| HeadScan.MaskRoundTrip | sources/DeepStream-Yolo/nvdsinfer_custom_impl_Yolo/yolo.cpp:600-614 | 64-bit numbers joined with commas are read back, each converted to int |
| HeadScan.MaskLength | sources/DeepStream-Yolo/nvdsinfer_custom_impl_Yolo/yolo.cpp:624-625 | with a written mask the number of boxes is its length whatever num says |
| HeadScan.ReadHead | sources/DeepStream-Yolo/nvdsinfer_custom_impl_Yolo/yolo.cpp:583-627 | the tensor built from a head block is the one its keys describe, or the block is rejected |
| HeadScan.HeadExactly | sources/DeepStream-Yolo/nvdsinfer_custom_impl_Yolo/yolo.cpp:583-627 | a head block is accepted exactly when its keys mean a head, and then the tensor has their anchors, mask, scale and number of boxes |
| HeadScan.AcceptedExactly | sources/DeepStream-Yolo/nvdsinfer_custom_impl_Yolo/yolo.cpp:551-629 | a block passes the first pass exactly when it has a type and the keys and numbers that its type needs |
| HeadScan.FieldsExact | sources/DeepStream-Yolo/nvdsinfer_custom_impl_Yolo/yolo.cpp:557-581 | after the pass, from any state, channels, height, width, letter_box, classes and new_coords are the numbers under these keys in the last block that has them, and otherwise as before |
| HeadScan.HeadTable | sources/DeepStream-Yolo/nvdsinfer_custom_impl_Yolo/yolo.cpp:575-627 | from any state the first pass appends one tensor per head block, in order, and adds their number to the count modulo 2^32 |
| HeadScan.DetectedAre | sources/DeepStream-Yolo/nvdsinfer_custom_impl_Yolo/yolo.cpp:551-629 | the k-th tensor appended describes the k-th head block |
| NetworkBuilder.SkipTargetExact | sources/DeepStream-Yolo/nvdsinfer_custom_impl_Yolo/yolo.cpp:340-346 | for every 32-bit block index and offset the wrapped unsigned asserts accept exactly when the true target lies before the previous layer and the tensors reach it, and then index that target |
| NetworkBuilder.ResolveRoute | sources/DeepStream-Yolo/nvdsinfer_custom_impl_Yolo/layers/route_layer.cpp:33-42 | a route is accepted exactly when every index resolves to an existing tensor |
| NetworkBuilder.RunStops | sources/DeepStream-Yolo/nvdsinfer_custom_impl_Yolo/yolo.cpp:463-466 | the first rejected block decides the result of the build |
| BlockRules.NamesOfSettings | sources/DeepStream-Yolo/nvdsinfer_custom_impl_Yolo/yolo.cpp:295-457 | which type names are net, dropout and heads |
| BlockRules.NamesOfConvolutions | sources/DeepStream-Yolo/nvdsinfer_custom_impl_Yolo/yolo.cpp:297-332 | which type names are convolutions and deconvolutions |
| BlockRules.NamesOfWeighted | sources/DeepStream-Yolo/nvdsinfer_custom_impl_Yolo/yolo.cpp:297-332 | which type names are the other layers with weights |
| BlockRules.NamesOfJoins | sources/DeepStream-Yolo/nvdsinfer_custom_impl_Yolo/yolo.cpp:334-417 | which type names are skip connections and routes |
| BlockRules.NamesOfResizes | sources/DeepStream-Yolo/nvdsinfer_custom_impl_Yolo/yolo.cpp:418-444 | which type names are upsampling, pooling and reorg |
| BlockRules.CurrentMeans | sources/DeepStream-Yolo/nvdsinfer_custom_impl_Yolo/yolo.cpp:297-444 | an accepted layer of these types calls its function once, with the current tensor, moves the weight cursor only for types with weights, and its output becomes current |
| BlockRules.ConstantMeans | sources/DeepStream-Yolo/nvdsinfer_custom_impl_Yolo/yolo.cpp:324-332 | an implicit layer gets no tensor and takes weights |
| BlockRules.JoinMeans | sources/DeepStream-Yolo/nvdsinfer_custom_impl_Yolo/yolo.cpp:334-401 | a skip connection gets the current tensor and the one that from counts to, in this order |
| BlockRules.SilentMeans | sources/DeepStream-Yolo/nvdsinfer_custom_impl_Yolo/yolo.cpp:295-296 | net and dropout change nothing |
| BlockRules.HeadMeans | sources/DeepStream-Yolo/nvdsinfer_custom_impl_Yolo/yolo.cpp:445-459 | a head records the current tensor, which stays current and is the next tensor |
| BlockRules.CurrentAccepted | sources/DeepStream-Yolo/nvdsinfer_custom_impl_Yolo/yolo.cpp:297-444 | such a layer is accepted exactly with its activation, four dimensions for a convolution or deconvolution, and an output |
| BlockRules.JoinAccepted | sources/DeepStream-Yolo/nvdsinfer_custom_impl_Yolo/yolo.cpp:334-401 | a skip connection is accepted exactly with a number under from, a target before the previous layer, and an output |
| BlockRules.HeadAccepted | sources/DeepStream-Yolo/nvdsinfer_custom_impl_Yolo/yolo.cpp:445-456 | a head is accepted exactly when the table has an entry and a slot for it |
| BlockRules.SilentAccepted | sources/DeepStream-Yolo/nvdsinfer_custom_impl_Yolo/yolo.cpp:460-466 | net and dropout are always accepted, a block of unknown type never |
| BlockRules.RanksAlwaysHold | sources/DeepStream-Yolo/nvdsinfer_custom_impl_Yolo/yolo.cpp:340-356 | no tensor of a build has rank zero, so these asserts never fail |
| BlockRules.CurrentIsLastOutput | sources/DeepStream-Yolo/nvdsinfer_custom_impl_Yolo/yolo.cpp:289-467 | the current tensor is the output of the last call, or the input |
| BlockRules.RouteRoundTrip | sources/DeepStream-Yolo/nvdsinfer_custom_impl_Yolo/layers/route_layer.cpp:16-31 | a written list of indices is read back, with or without a last comma and blanks behind it |
| BlockRules.RouteDecodes | sources/DeepStream-Yolo/nvdsinfer_custom_impl_Yolo/layers/route_layer.cpp:13-32 | a route needs a list of at least one index, each an int |
| BlockRules.RouteAccepted | sources/DeepStream-Yolo/nvdsinfer_custom_impl_Yolo/layers/route_layer.cpp:33-76 | such a route is accepted exactly when its indices resolve and there is an output, which is not needed for one index without groups |
| LayerNumbers.TensorCount | sources/DeepStream-Yolo/nvdsinfer_custom_impl_Yolo/yolo.cpp:292-467 | before block n there are n minus the net and dropout blocks tensors |
| LayerNumbers.OutputsAre | sources/DeepStream-Yolo/nvdsinfer_custom_impl_Yolo/yolo.cpp:292-467 | tensor t is the output of the t-th block that is not net or dropout |
| LayerNumbers.SkipAccepted | sources/DeepStream-Yolo/nvdsinfer_custom_impl_Yolo/yolo.cpp:344-346 | a skip connection passes its asserts exactly when its target is a layer number before that of the previous layer and at most one earlier block is net or dropout |
| LayerNumbers.SkipMeans | sources/DeepStream-Yolo/nvdsinfer_custom_impl_Yolo/yolo.cpp:356-377 | an accepted shortcut, sam or channels block calls its function once, with the output of the previous block and that of the block that made the target tensor |
| LayerNumbers.SkipNames | sources/DeepStream-Yolo/nvdsinfer_custom_impl_Yolo/yolo.cpp:337-349 | net blocks not being layers, that block is the layer the cfg means exactly when, for a layer number, none of the layers up to it is a dropout, and, for an offset, a net stands before the shortcut or a dropout before block i + from |
| LayerNumbers.SkipAfterNet | sources/DeepStream-Yolo/nvdsinfer_custom_impl_Yolo/yolo.cpp:344-346 | with a net anywhere before it a skip connection is accepted only with no dropout and no second net before it, and then reads the layer that is meant |
| LayerNumbers.OffsetWithoutNet | sources/DeepStream-Yolo/nvdsinfer_custom_impl_Yolo/yolo.cpp:340-346 | with no net and no dropout before it an offset reads the layer before the one that is meant |
| LayerNumbers.RouteNames | sources/DeepStream-Yolo/nvdsinfer_custom_impl_Yolo/layers/route_layer.cpp:33-38 | a route index passes exactly when its tensor exists, and names the output of the block that made it |
| LayerNumbers.RouteMeans | sources/DeepStream-Yolo/nvdsinfer_custom_impl_Yolo/layers/route_layer.cpp:32-76 | an accepted route takes the tensors its indices resolve to, in order; one index without groups gives that tensor itself |
| LayerNumbers.RouteAbsolute | sources/DeepStream-Yolo/nvdsinfer_custom_impl_Yolo/layers/route_layer.cpp:33-38 | wherever nets stand, a route index v names layer v exactly when none of the layers 0 to v is a dropout, and otherwise a later layer |
| LayerNumbers.RouteRelative | sources/DeepStream-Yolo/nvdsinfer_custom_impl_Yolo/layers/route_layer.cpp:34-36 | wherever nets stand, a route index -v names the layer v back exactly when none of the last v layers is a dropout, and otherwise an earlier one |
| Examples.Traced | sources/DeepStream-Yolo/nvdsinfer_custom_impl_Yolo/yolo.cpp:292-467 | cfgs of nets, convolutions, dropouts, shortcuts and routes are built as their traces say |
| Examples.Imported | sources/DeepStream-Yolo/nvdsinfer_custom_impl_Yolo/yolo.cpp:256-509 | with a net and a head at the end they are imported |
| Examples.ShortcutAfterDropout | sources/DeepStream-Yolo/nvdsinfer_custom_impl_Yolo/yolo.cpp:337-349 | conv, conv, dropout, conv, conv, shortcut from=2, net, yolo is imported, and its shortcut reads the output of block 3 |
| Examples.LeadingDropout | sources/DeepStream-Yolo/nvdsinfer_custom_impl_Yolo/yolo.cpp:337-349 | dropout, five conv, shortcut from=2, net, yolo is imported, and its shortcut reads the output of block 3 and not of block 2 |
| Examples.OffsetOneTooFar | sources/DeepStream-Yolo/nvdsinfer_custom_impl_Yolo/yolo.cpp:337-349 | five conv, shortcut from=-3, net, yolo is imported, and its shortcut reads the output of block 1 and not of block 2 |
| Examples.RouteAfterDropout | sources/DeepStream-Yolo/nvdsinfer_custom_impl_Yolo/layers/route_layer.cpp:33-47 | net, conv, dropout, conv, route layers=1, yolo is imported, and its route is the output of block 3 |
| LayerNumbers.ProducerLayer | sources/DeepStream-Yolo/nvdsinfer_custom_impl_Yolo/yolo.cpp:292-467 | tensor t comes from layer t plus the number of dropouts before that layer |
| LayerNumbers.ProducerFromStart | sources/DeepStream-Yolo/nvdsinfer_custom_impl_Yolo/yolo.cpp:292-467 | which layer made tensor t, counted from the start |
| LayerNumbers.ProducerFromEnd | sources/DeepStream-Yolo/nvdsinfer_custom_impl_Yolo/yolo.cpp:292-467 | which layer made the v-th tensor from the end |
| LayerNumbers.LayerUnique | sources/DeepStream-Yolo/nvdsinfer_custom_impl_Yolo/yolo.cpp:292-467 | a layer number belongs to one block |
| HeadAgreement.HeadsFilled | sources/DeepStream-Yolo/nvdsinfer_custom_impl_Yolo/yolo.cpp:445-459 | after any number of blocks the heads so far have filled their table entries in order and no other entry has changed |
| HeadAgreement.NoOverrun | sources/DeepStream-Yolo/nvdsinfer_custom_impl_Yolo/yolo.cpp:449-456 | with an entry and a slot for each head no access to the table or to yoloTensorInputs is out of bounds |
| HeadAgreement.PassesNeverOverrun | sources/DeepStream-Yolo/nvdsinfer_custom_impl_Yolo/yolo.cpp:449-456 | after a first pass on a new object over the same blocks the second pass never leaves the table |
| HeadAgreement.TwoPassesAgree | sources/DeepStream-Yolo/nvdsinfer_custom_impl_Yolo/yolo.cpp:445-479 | heads built equal heads counted, and entry k has the numbers of the k-th head block, its type and number as name, and dimensions 2 and 3 of the tensor before it as height and width of the grid |
| HeadAgreement.UsedObjectDisagrees | sources/DeepStream-Yolo/nvdsinfer_custom_impl_Yolo/yolo.cpp:105-107 | on an object that has already counted heads the final comparison holds exactly when that count was zero |
| HeadAgreement.WiderRun | sources/DeepStream-Yolo/nvdsinfer_custom_impl_Yolo/yolo.cpp:445-459 | more table entries and slots than a build needs change nothing but the table |
| HeadAgreement.WeightsSpent | sources/DeepStream-Yolo/nvdsinfer_custom_impl_Yolo/yolo.cpp:297-332 | each layer block calls its layer function once, in order, and the cursor is the sum of what the weighted layers took |
| OutputLayout.OutputSize | sources/DeepStream-Yolo/nvdsinfer_custom_impl_Yolo/yolo.cpp:475-479 | the 64-bit accumulation is the sum of the wrapped products |
| OutputLayout.SizeExact | sources/DeepStream-Yolo/nvdsinfer_custom_impl_Yolo/yolo.cpp:475-479 | outputSize never exceeds the true number of boxes and equals it exactly when every product fits in 32 bits |
| OutputLayout.SizeWraps | sources/DeepStream-Yolo/nvdsinfer_custom_impl_Yolo/yolo.cpp:478 | a head of 2^16 by 2^16 cells counts as zero boxes |
| OutputLayout.BoxUnique | sources/DeepStream-Yolo/nvdsinfer_custom_impl_Yolo/yoloForward.cu:22-51 | two cells of any heads never share a box of the output |
| OutputLayout.BoxOwned | sources/DeepStream-Yolo/nvdsinfer_custom_impl_Yolo/yoloForward.cu:22-51 | every box of the output belongs to a cell of a head |
| OutputLayout.OffsetIs | sources/DeepStream-Yolo/nvdsinfer_custom_impl_Yolo/yoloForward.cu:22-51 | the box of a cell is (z * gridSizeY + y) * gridSizeX + x within its head |
| OutputLayout.LaunchedBlocks | sources/DeepStream-Yolo/nvdsinfer_custom_impl_Yolo/yoloForward.cu:71-73 | the launch has size / threads + 1 blocks in each dimension, of 16, 16 and 4 threads |
| OutputLayout.OneThreadPerCell | sources/DeepStream-Yolo/nvdsinfer_custom_impl_Yolo/yoloForward.cu:14-20 | the launch has exactly one thread for each cell |
| OutputLayout.CountsExact | sources/DeepStream-Yolo/nvdsinfer_custom_impl_Yolo/yoloForward.cu:22-51 | the mixed signed and unsigned counts of a head are the boxes of their cells exactly when the head ends by box 2^31 |
| OutputLayout.AddressesExact | sources/DeepStream-Yolo/nvdsinfer_custom_impl_Yolo/yoloForward.cu:51-58 | every thread of every launch writes the values of its own box exactly when all indices of the output are ints |
| OutputLayout.WritesDisjoint | sources/DeepStream-Yolo/nvdsinfer_custom_impl_Yolo/yoloForward.cu:51-58 | no two threads of all launches write the same address, and none writes outside outputSize * 6 values |
| OutputLayout.OutputCovered | sources/DeepStream-Yolo/nvdsinfer_custom_impl_Yolo/yoloForward.cu:51-58 | every address of the output is written by a thread |
| KernelReads.ReadsExact | sources/DeepStream-Yolo/nvdsinfer_custom_impl_Yolo/yoloForward.cu:22-44 | in mixed signed and unsigned arithmetic each thread reads the values of its own box exactly when the input tensor has at most 2^32 values |
| KernelReads.PlaceIs | sources/DeepStream-Yolo/nvdsinfer_custom_impl_Yolo/yoloForward.cu:28-44 | value c of a box is at ((z * (5 + classes) + c) * gridSizeY + y) * gridSizeX + x |
| KernelReads.PlaceUnique | sources/DeepStream-Yolo/nvdsinfer_custom_impl_Yolo/yoloForward.cu:28-44 | no two reads are of the same value |
| KernelReads.ReadsFit | sources/DeepStream-Yolo/nvdsinfer_custom_impl_Yolo/yoloForward.cu:28-44 | the reads stay within a tensor exactly when it has a value for each value of each box, or for each word |
| Examples.InputTooSmall | sources/DeepStream-Yolo/nvdsinfer_custom_impl_Yolo/yolo.cpp:445-459 | net, conv, yolo is imported whatever the channels of the tensor, and its head reads beyond fewer than six values |
| KernelReads.InputSizeExact | sources/DeepStream-Yolo/nvdsinfer_custom_impl_Yolo/yoloPlugins.cpp:235 | inputSize is the true size of the tensor exactly when that is below 2^32 |
| KernelReads.MaskReadsFit | sources/DeepStream-Yolo/nvdsinfer_custom_impl_Yolo/yoloForward.cu:34-36 | the reads of mask and anchors are inside exactly when every index in the mask is one of a pair of anchors that was given |
| Examples.MaskBeyondAnchors | sources/DeepStream-Yolo/nvdsinfer_custom_impl_Yolo/yolo.cpp:583-627 | the first pass accepts a mask of 1 with a single anchor |
| Bytes.WordRoundTrip | sources/DeepStream-Yolo/nvdsinfer_custom_impl_Yolo/yoloPlugins.cpp:29-38 | a written word is read back |
| Bytes.WordValue | sources/DeepStream-Yolo/nvdsinfer_custom_impl_Yolo/yoloPlugins.cpp:29-38 | the first byte of a word is the lowest |
| YoloPlugin.WriteTensor | sources/DeepStream-Yolo/nvdsinfer_custom_impl_Yolo/yoloPlugins.cpp:152-168 | one tensor is appended to the stored words |
| YoloPlugin.ReadTensor | sources/DeepStream-Yolo/nvdsinfer_custom_impl_Yolo/yoloPlugins.cpp:67-91 | one stored tensor is read back without its blob name |
| YoloPlugin.YoloLayer.Serialize | sources/DeepStream-Yolo/nvdsinfer_custom_impl_Yolo/yoloPlugins.cpp:138-170 | serialize fills the buffer with the stored words of the plugin |
| YoloPlugin.YoloLayer.GetSerializationSize | sources/DeepStream-Yolo/nvdsinfer_custom_impl_Yolo/yoloPlugins.cpp:111-136 | the announced size is the number of bytes that serialize writes |
| YoloPlugin.YoloLayer.FromBytes | sources/DeepStream-Yolo/nvdsinfer_custom_impl_Yolo/yoloPlugins.cpp:56-92 | reading the stored words gives the plugin back, save for the blob names |
| YoloPlugin.StoreAndLoad | sources/DeepStream-Yolo/nvdsinfer_custom_impl_Yolo/yoloPlugins.cpp:56-170 | a plugin stored in a buffer of the announced size and loaded is the same plugin, save for the blob names |
| YoloPlugin.HeaderStored | sources/DeepStream-Yolo/nvdsinfer_custom_impl_Yolo/yoloPlugins.cpp:138-150 | the order of the stored words of the plugin |
| YoloPlugin.TensorStored | sources/DeepStream-Yolo/nvdsinfer_custom_impl_Yolo/yoloPlugins.cpp:151-169 | the order of the stored words of a tensor |
| WeightsFile.LoadWeights | sources/DeepStream-Yolo/nvdsinfer_custom_impl_Yolo/utils.cpp:71-113 | a file longer than its header is accepted exactly when its name has .weights and its payload is whole floats, whose bytes are the payload |
| WeightsFile.HeaderBytes | sources/DeepStream-Yolo/nvdsinfer_custom_impl_Yolo/utils.cpp:84-92 | the header has 16 bytes when the path has yolov2 but not yolov2-tiny, and otherwise 20 |
| WeightsFile.PayloadDetermines | sources/DeepStream-Yolo/nvdsinfer_custom_impl_Yolo/utils.cpp:94-102 | the floats are determined by the payload |
| YoloModel.Yolo.ParseConfigBlocks | sources/DeepStream-Yolo/nvdsinfer_custom_impl_Yolo/yolo.cpp:548-630 | the first pass succeeds exactly when every block is accepted, and then the fields are the numbers under the keys of the cfg |
| YoloModel.Yolo.BuildBlock | sources/DeepStream-Yolo/nvdsinfer_custom_impl_Yolo/yolo.cpp:293-466 | one block moves the local variables and the head table as its instruction says |
| YoloModel.Yolo.BuildYoloNetwork | sources/DeepStream-Yolo/nvdsinfer_custom_impl_Yolo/yolo.cpp:274-509 | the loop and the final checks give the state and the result of the specified build |
| YoloModel.Yolo.ParseModel | sources/DeepStream-Yolo/nvdsinfer_custom_impl_Yolo/yolo.cpp:256-272 | the weights are loaded or rejected, and the build is the specified one |
| YoloModel.Yolo.CreateEngine | sources/DeepStream-Yolo/nvdsinfer_custom_impl_Yolo/yolo.cpp:104-118 | the result and the fields are exactly what the cfg, both passes and the weights give; an engine comes only from an object that had counted no heads, and a new object never fails for its head table or head count |
| YoloModel.ImportTwice | sources/DeepStream-Yolo/nvdsinfer_custom_impl_Yolo/yolo.cpp:104-118 | whenever a first import succeeds, the same import again fails on the count of heads |
| YoloModel.SecondImportFails | sources/DeepStream-Yolo/nvdsinfer_custom_impl_Yolo/yolo.cpp:474-498 | after an import the same cfg and weights build the same network and fail on the count of heads only |
| Examples.TinyTwice | sources/DeepStream-Yolo/nvdsinfer_custom_impl_Yolo/yolo.cpp:474-498 | net, conv, yolo is imported by a new object and fails on the count of heads the second time |
| YoloModel.NewObjectAgrees | sources/DeepStream-Yolo/nvdsinfer_custom_impl_Yolo/yolo.cpp:474-498 | the branch for an error in the cfg file is unreachable on a new object |
| YoloModel.WeightsConserved | sources/DeepStream-Yolo/nvdsinfer_custom_impl_Yolo/yolo.cpp:469-472 | the check on unused weights fails exactly when the layers took a different number than was loaded |
| YoloModel.EngineIsWhole | sources/DeepStream-Yolo/nvdsinfer_custom_impl_Yolo/yolo.cpp:256-509 | an imported engine has the sides, classes and coordinates of the cfg, one input and one table entry per head block with its numbers, name and grid, the output size of all heads, and layers that took all weights |
| YoloModel.InputFrom | sources/DeepStream-Yolo/nvdsinfer_custom_impl_Yolo/yolo.cpp:281-284 | the input has the height and the width of the cfg as its last dimensions |
| YoloModel.ImportedExactly | sources/DeepStream-Yolo/nvdsinfer_custom_impl_Yolo/yolo.cpp:256-509 | a new object imports exactly when all blocks are accepted, all weights are taken, and width, height, classes and boxes are not zero |
| BBoxDecode.Clamp | sources/DeepStream-Yolo/nvdsinfer_custom_impl_Yolo/utils.cpp:52-57 | the result is the value when it lies in the range, and otherwise the bound that it passed |
| BBoxDecode.ConvertExact | sources/DeepStream-Yolo/nvdsinfer_custom_impl_Yolo/nvdsparsebbox_Yolo.cpp:34-55 | clamped corners and sizes are at least one pixel exactly when the proposal meets the frame in at least one pixel each way, and then are the intersection |
| BBoxDecode.IntersectionExact | sources/DeepStream-Yolo/nvdsinfer_custom_impl_Yolo/nvdsparsebbox_Yolo.cpp:34-55 | a kept box has exactly the points that the proposal and the frame share, and lies in the frame |
| BBoxDecode.AddBBoxProposal | sources/DeepStream-Yolo/nvdsinfer_custom_impl_Yolo/nvdsparsebbox_Yolo.cpp:57-70 | a visible proposal is appended cut to the frame, another is dropped |
| BBoxDecode.RecordStands | sources/DeepStream-Yolo/nvdsinfer_custom_impl_Yolo/nvdsparsebbox_Yolo.cpp:78-89 | record b is in the six values from 6 * b on: corners, confidence, class |
| BBoxDecode.Truncate | sources/DeepStream-Yolo/nvdsinfer_custom_impl_Yolo/nvdsparsebbox_Yolo.cpp:80 | a class is truncated toward zero |
| BBoxDecode.DetectedExactly | sources/DeepStream-Yolo/nvdsinfer_custom_impl_Yolo/nvdsparsebbox_Yolo.cpp:72-95 | the boxes are, in order, those of exactly the records that reach the threshold of their class and share a unit square with the frame, each with the points shared, the confidence and the class of its record |
| BBoxDecode.DecodeTensorYolo | sources/DeepStream-Yolo/nvdsinfer_custom_impl_Yolo/nvdsparsebbox_Yolo.cpp:72-95 | the loop gives these boxes |
| BBoxDecode.IndicesExact | sources/DeepStream-Yolo/nvdsinfer_custom_impl_Yolo/nvdsparsebbox_Yolo.cpp:78-89 | the 32-bit record indices are exact for every record exactly up to 715827882 records |
| BBoxDecode.CudaIndicesExact | sources/DeepStream-Yolo/nvdsinfer_custom_impl_Yolo/nvdsparsebbox_Yolo_cuda.cu:38-55 | the signed record indices of the CUDA version do not overflow exactly up to 357913941 records |
| BBoxDecode.CudaAgrees | sources/DeepStream-Yolo/nvdsinfer_custom_impl_Yolo/nvdsparsebbox_Yolo_cuda.cu:35-68 | up to that size the CUDA boxes of at least one pixel are the CPU boxes, in order |
| Calibrator.Int8EntropyCalibrator2.GetBatch | sources/DeepStream-Yolo/nvdsinfer_custom_impl_Yolo/calibrator.cpp:43-74 | a call delivers the next batch exactly when it is within the list and readable, and otherwise moves neither the cursor nor the device buffer |
| Calibrator.Int8EntropyCalibrator2.ReadBatch | sources/DeepStream-Yolo/nvdsinfer_custom_impl_Yolo/calibrator.cpp:50-66 | the copy loop tiles the buffer with the images or stops at an unreadable one, never writing outside it |
| Calibrator.MemCopy | sources/DeepStream-Yolo/nvdsinfer_custom_impl_Yolo/calibrator.cpp:61 | the copy changes exactly its stretch of the buffer |
| Calibrator.FlattenAt | sources/DeepStream-Yolo/nvdsinfer_custom_impl_Yolo/calibrator.cpp:50-62 | value j of image k of a batch is at k * size + j |
| Calibrator.ReIDEntropyCalibrator.GetBatch | sources/tracker_ReID/calibrate.py:58-69 | the next four images exactly when there are four, or None without moving |
| BatchCursor.CursorCounts | sources/DeepStream-Yolo/nvdsinfer_custom_impl_Yolo/calibrator.cpp:46-68 | in any run, whatever can be read when, the cursor stands after the batches delivered so far |
| BatchCursor.DeliveredPrefix | sources/tracker_ReID/calibrate.py:58-69 | in any run what has been delivered is a prefix of the list: nothing twice, nothing skipped |
| BatchCursor.SteadyRun | sources/DeepStream-Yolo/nvdsinfer_custom_impl_Yolo/calibrator.cpp:46-68 | with unchanging files exactly the whole batches before the first unreadable image are delivered, and every later call fails |
| BatchCursor.AllReadable | sources/tracker_ReID/calibrate.py:58-69 | with all images readable exactly floor(n / size) calls deliver |
| PrepareImage.Round | sources/DeepStream-Yolo/nvdsinfer_custom_impl_Yolo/calibrator.cpp:116 | a rounded side is within half a pixel, and a half goes to the even side |
| PrepareImage.CropScales | sources/DeepStream-Yolo/nvdsinfer_custom_impl_Yolo/calibrator.cpp:114-117 | one factor scales both sides, each rounded, and is the least that makes both cover the input; an image of the input size is left alone |
| PrepareImage.CropExample | sources/DeepStream-Yolo/nvdsinfer_custom_impl_Yolo/calibrator.cpp:114-117 | 1920 by 1080 for 608 by 608 is resized to 1081 by 608 and cropped at 236 |
| PrepareImage.CropCovers | sources/DeepStream-Yolo/nvdsinfer_custom_impl_Yolo/calibrator.cpp:114-119 | the resized image covers the input, exactly so in one direction, the crop lies inside it, and opposite margins differ by at most one |
| PrepareImage.CopyPlanes | sources/DeepStream-Yolo/nvdsinfer_custom_impl_Yolo/calibrator.cpp:130-138 | the copied planes hold every channel of every pixel |
| PrepareImage.PositionIs | sources/DeepStream-Yolo/nvdsinfer_custom_impl_Yolo/calibrator.cpp:130-138 | a value is at ((k * C + c) * H + y) * W + x |
| PrepareImage.PositionUnique | sources/DeepStream-Yolo/nvdsinfer_custom_impl_Yolo/calibrator.cpp:130-138 | two values of a batch never land at the same position |
| PrepareImage.PositionCovered | sources/DeepStream-Yolo/nvdsinfer_custom_impl_Yolo/calibrator.cpp:130-138 | every position of the buffer is the place of a value |
| PrepareImage.BatchValue | sources/DeepStream-Yolo/nvdsinfer_custom_impl_Yolo/calibrator.cpp:50-62 | in a batch of prepared images channel c of pixel (x, y) of image k is at k*C*H*W + c*H*W + y*W + x |
| Template.ReplaceIsSubst | tools/graph_extension_generator/graph_gstcomponent_generator.py:555-561 | one str.replace of a token on a template is the substitution of that token |
| Template.ChainIsSimultaneous | tools/graph_extension_generator/graph_gstcomponent_generator.py:555-561 | a chain of replacements is the simultaneous substitution when no value can start a token that is replaced later |
| Template.SetterFilled | tools/graph_extension_generator/graph_gstcomponent_generator.py:555-561 | a property setter filled with a name and types without < and any default value is the simultaneous substitution |
| Registration.SurvivesExactly | tools/graph_extension_generator/graph_gstcomponent_generator.py:533-546 | filled-in text survives one later replacement exactly when it does not hold that token or the token stands for itself |
| Registration.ChainSurvivesExactly | tools/graph_extension_generator/graph_gstcomponent_generator.py:533-546 | it survives any number of later replacements by plain text exactly when it holds none of their tokens |
| Registration.ChainLeaves | tools/graph_extension_generator/graph_gstcomponent_generator.py:533-546 | a chain on a template whose texts seal its tokens leaves each value as the replacements after its own leave it, alone |
| Registration.OneInDoubt | tools/graph_extension_generator/graph_gstcomponent_generator.py:533-546 | with one value in doubt the chain is the simultaneous substitution exactly when that value survives |
| Registration.DescriptionExact | tools/graph_extension_generator/graph_gstcomponent_generator.py:540-546 | with plain nick and default the registration is the simultaneous substitution exactly when the description holds neither <HEADLINE> nor <DEFAULT_VALUE> |
| Registration.NickExact | tools/graph_extension_generator/graph_gstcomponent_generator.py:540-546 | when the description holds neither, then for every nick and every default exactly when the nick does not hold <DEFAULT_VALUE> or the default is that token |
| Registration.MandatoryExact | tools/graph_extension_generator/graph_gstcomponent_generator.py:533-538 | for every description and nick of a mandatory parameter exactly when the description does not hold <HEADLINE> or the nick is that token |
| Registration.ControlExact | tools/graph_extension_generator/graph_gstcomponent_generator.py:576-588 | for every description and type of a run-time control exactly when the description does not hold <PROPTYPE> or the type is that token |
| Registration.OptionalText | tools/graph_extension_generator/graph_gstcomponent_generator.py:540-546 | the registration of a parameter with a default value, word for word |
| Registration.MandatoryText | tools/graph_extension_generator/graph_gstcomponent_generator.py:533-538 | the registration of a mandatory parameter, word for word |
| Registration.SetterText | tools/graph_extension_generator/graph_gstcomponent_generator.py:122-127 | the method that sets a property, word for word |
| Registration.GetterText | tools/graph_extension_generator/graph_gstcomponent_generator.py:129-134 | the method that gets a property, word for word |
| Registration.DescriptionRewritten | tools/graph_extension_generator/graph_gstcomponent_generator.py:540-546 | the description "see <HEADLINE>." is rewritten |
| Registration.DescriptionRestored | tools/graph_extension_generator/graph_gstcomponent_generator.py:540-546 | a description that holds a token comes back unchanged when the nick completes the token of a default of the same text |
| Definition.ReconcileGrows | tools/graph_extension_generator/graph_gstcomponent_generator.py:429-502 | a run only adds: every key, uuid, argument name, list element and user field stays as it is |
| DefinitionFill.ReconcileFills | tools/graph_extension_generator/graph_gstcomponent_generator.py:265-336 | what a run fills in: for each signal the uuid drawn for it, three placeholders of its name, numbered argument names and no ignore, the class name of the element, missing lists, the properties of the element, and the last uuid for run-time control; other entries stay and nothing else is added |
| DefinitionFill.PropertiesFill | tools/graph_extension_generator/graph_gstcomponent_generator.py:492-503 | each property of the element, save name and parent, is listed once, and ignored when it cannot be written |
| Definition.GrowsAntisymmetric | tools/graph_extension_generator/graph_gstcomponent_generator.py:429-502 | growing is an order, so nothing that was added can disappear again |
| DefinitionRuns.ReconcileCompletes | tools/graph_extension_generator/graph_gstcomponent_generator.py:265-336 | a run makes the definition complete for the element, and changes nothing exactly when it was complete |
| DefinitionRuns.ReconcileIdempotent | tools/graph_extension_generator/graph_gstcomponent_generator.py:265-336 | a second run in memory, whatever uuids it draws, changes nothing |
| DefinitionRuns.FileStable | tools/graph_extension_generator/graph_gstcomponent_generator.py:265-361 | a second run that starts from the file leaves the file as it is, even when the first one left it behind |
| DefinitionRuns.StepKeepsDone | tools/graph_extension_generator/graph_gstcomponent_generator.py:276-317 | completing one signal never makes another incomplete |
| DefinitionRuns.SavedExactly | tools/graph_extension_generator/graph_gstcomponent_generator.py:319-361 | the file holds the result of a run exactly when the class name was missing, something besides the signals was incomplete, or the last incomplete signal is not ignored |
| DefinitionRuns.UnsavedRun | tools/graph_extension_generator/graph_gstcomponent_generator.py:319-320 | a definition that lacks only the brief of an ignored signal is completed in memory and not in the file |
| Generator.GraphGstComponentGenerator.GenerateSignal | tools/graph_extension_generator/graph_gstcomponent_generator.py:263-361 | the entry of the signal is completed in place, and the file is written exactly when it changed and is not ignored |
| Generator.GraphGstComponentGenerator.GenerateClass | tools/graph_extension_generator/graph_gstcomponent_generator.py:426-502 | one pass over name, signals, parameters, runtime control and headers fills in what it should, in memory and on disk |
| Generator.GraphGstComponentGenerator.GenerateRest | tools/graph_extension_generator/graph_gstcomponent_generator.py:449-502 | the update flag is set exactly when the definition changed |
| DefinitionRuns.StepIdle | tools/graph_extension_generator/graph_gstcomponent_generator.py:281-334 | a signal changes the definition exactly when its list, its entry, a field or an argument name is missing |
| Generator.FillProperties | tools/graph_extension_generator/graph_gstcomponent_generator.py:492-503 | properties are listed once each, unwritable ones also ignored, and the flag says whether a list grew |
| PluginGroups.ElementList | tools/graph_extension_generator/generate_extensions.py:56-65 | the sorted lines, each once, without comments |
| PluginGroups.SortedAscending | tools/graph_extension_generator/generate_extensions.py:59 | the sorted lines ascend in code point order |
| PluginGroups.LexMeans | tools/graph_extension_generator/generate_extensions.py:59 | a line is not above another when it is its start, or smaller where they first differ |
| PluginGroups.GroupElementsByPlugin | tools/graph_extension_generator/generate_extensions.py:36-49 | plugins are distinct and in the order in which the list first names them, each group is the non-empty subsequence of its plugin, every loadable element has a group |
| PluginGroups.PluginsInOrder | tools/graph_extension_generator/generate_extensions.py:36-49 | the first element of a group comes before the first element of any later group |
| PluginGroups.GroupsPartition | tools/graph_extension_generator/generate_extensions.py:36-49 | a listed element is in exactly one group if it can be loaded and in none otherwise |
| PluginGroups.MembersExactly | tools/graph_extension_generator/generate_extensions.py:36-49 | a group is the subsequence of the list that belongs to its plugin |
| PluginGroups.MembersUnique | tools/graph_extension_generator/generate_extensions.py:36-49 | no element is repeated within a group |

## Left out

- TensorRT, CUDA calls, ONNX parsing, precision flags and engine serialisation around the plugin: foreign code.
- The layer functions: each is an unknown function from block index and input tensors to a tensor or nullptr and a
  number of weights taken. Only the resolution of route indices is modelled from them.
- Reading past the end of the weights vector, which is undefined: the cursor runs on and the final check rejects.
- The conversion of text to float (stof) is a parameter that may reject; floats are kept as bit patterns.
- Floating-point rounding and NaN: boxes are real, scale factors are exact.
- Cfg lines that trim to nothing without being skipped, and class indices outside the threshold vector: undefined, so
  excluded by preconditions. Weight files no longer than their header: what the stream then does depends on the library.
- Characters outside the "C" locale in isspace, and lines or files of 2^31 bytes or more.
- Which assert or exception rejects a block: only the first rejected block is exact, the kind of error is a label.
- The values the kernels compute, and the images after the first of a batch, which lie outputSize * 6 values apart.
- Pixel values: colour conversion, interpolation, mean subtraction.
- The reads of the region kernel, which has no mask.
- The text of generated code beyond the replacement chains; in `SetterFilled` the template is any plain text around
  tokens.
- DescriptionExact: when the description holds a token and the nick or the default holds '<', whether the text comes
  back is stated by `OneInDoubt` only.
- Pad templates, default values of properties, namespaces, YAML text, clang-format and the Bazel files.
- The registry lookup is a parameter from element to plugin; the dictionary of groups is a list in order of insertion.
- Header-only interfaces under sources/includes and service-maker/includes: nothing there decides a property.
