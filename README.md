# Video codec table, line converters and worker pool

This project is a Dafny model of two parts of UltraGrid's video layer, with proofs about both.

- **The codec description table.** The table lists every pixel format together with its
  FourCC, name, file extension, horizontal alignment, and RGB and opaque flags. A second
  table lists FourCC aliases.
  - The model covers the lookups that scan these tables.
  - It proves that codec → FourCC → codec is the identity.
  - It proves that every alias resolves to the codec it stands for.
  - It proves that an aligned width is the least multiple of the alignment that is at
    least the width, for every width above minus the alignment.
- **The scalar line converters.** These repack one line of pixels from one memory layout
  into another: v210 → UYVY, YUYV → UYVY, RGBA → RGB, RGB → RGBA, DPX10 → RGBA,
  DPX10 → RGB and DVS10 → v210.
  - Each converter is a method over a destination `array<bv32>`. Its loop has the same
    group size, the same pointer steps and the same `dst_len` bookkeeping as the C loop.
  - Each method is proved to write exactly a line function of its source words, and to
    leave the rest of `dst` untouched.
  - Each line function is proved equal to a byte-level reference: the pixels of the source,
    in order, each reduced to its 8-bit components.
    - For YUYV, the luma and chroma bytes of each pair are swapped.
    - For DVS10 → v210, the result decodes to the same 8-bit pixel as the source.
- **The worker pool.** Each worker owns a FIFO queue of tasks and a FIFO queue of results.
  - A pool keeps its workers in an idle set and a busy set. It creates a worker whenever
    no idle one is available.
  - Workers stop at a poison pill, which is a task with a NULL function.
  - The model is sequential: one call of `RunStep` is one pass of the worker thread's loop.
  - A pure state machine (`Step`, `Drain`) specifies the queues. Lemmas prove these facts:
    - the results come out in FIFO order;
    - the poison pill stops the worker after exactly the tasks queued before it;
    - tasks queued behind the poison pill are never run;
    - the pool's idle and busy sets stay disjoint.

Files:
- `Wrappers.dfy`: `Option`.
- `Words.dfy`: the little-endian byte view of 32-bit words (`WordBytes`, `Bytes`), and
  `MapChunks`, which maps a function over the consecutive k-element chunks of a sequence.
- `VideoCodec.dfy`: the tables and their lookups.
- `CopyLine.dfy`: the converters.
- `Worker.dfy`: the worker and the pool.

## Model

| member | source | states |
|---|---|---|
| VideoCodec.ToFourcc | src/video_codec.c:60 | Stored little-endian, the packed word spells the four characters in order. |
| VideoCodec.TableIndexedByCodec | src/video_codec.c:66-82 | Row i of codec_info describes codec i, so the table can be indexed by codec value. |
| VideoCodec.TableFccsDistinct | src/video_codec.c:66-82 | No two rows of codec_info share a FourCC. |
| VideoCodec.AliasesDistinct | src/video_codec.c:111-120 | No alias FourCC is listed twice. |
| VideoCodec.AliasesNotInTable | src/video_codec.c:111-120 | No alias is itself a FourCC of codec_info, so the alias scan is reached only for aliases. |
| VideoCodec.AliasPrimariesKnown | src/video_codec.c:111-120 | Every alias names a primary FourCC that codec_info contains. |
| VideoCodec.FindCodec | src/video_codec.c:158-162 | The scan by codec finds the first row at or after i with that codec, or None when no such row remains. |
| VideoCodec.FindFcc | src/video_codec.c:195-199 | The scan by FourCC finds the first row at or after i with that FourCC, or None when no such row remains. |
| VideoCodec.GetFourcc | src/video_codec.c:154-164 | A known codec gives its row's FourCC; any other value gives 0. |
| VideoCodec.GetCodecName | src/video_codec.c:166-176 | A known codec gives its row's name; any other value gives NULL (None). |
| VideoCodec.GetFccFromCodec | src/video_codec.c:178-189 | Same answer as get_fourcc: the row's FourCC, or 0 for an unknown codec. |
| VideoCodec.GetCodecFileExtension | src/video_codec.c:217-228 | A known codec gives its row's file extension; any other value gives NULL (None). |
| VideoCodec.IsCodecOpaque | src/video_codec.c:230-240 | True exactly when the codec is known and its row is flagged opaque. |
| VideoCodec.CodecIsARgb | src/video_codec.c:844-854 | True exactly when the codec is known and its row is flagged RGB. |
| VideoCodec.GetHalign | src/video_codec.c:242-252 | A known codec gives its row's alignment; any other value gives 0. |
| VideoCodec.HalignValues | src/video_codec.c:66-82 | The alignment is 48 exactly for v210 and DVS10. It is 0 exactly for JPEG, RAW and unknown codecs. It is 1 for every other codec. |
| VideoCodec.CDiv | src/video_codec.c:257 | C int division: truncates toward zero for either sign of the dividend. |
| VideoCodec.RoundUp | src/video_codec.c:254-258 | For w + h > 0, ((w + h - 1) / h) * h is a multiple of h in [w, w + h). |
| VideoCodec.GetHaligned | src/video_codec.c:254-258 | For a width above minus the alignment, the aligned width is a multiple of the codec's alignment, at least the width and less than width + alignment. Both the division by zero and the int overflow are excluded. |
| VideoCodec.FindAlias | src/video_codec.c:201-213 | An alias is resolved through its first matching entry, to the row with its primary FourCC. A FourCC that is no alias gives None. |
| VideoCodec.GetCodecFromFcc | src/video_codec.c:191-215 | A FourCC in codec_info gives that row's codec. Otherwise an alias gives the codec of its primary FourCC. Anything else gives -1. |
| VideoCodec.FourccRoundTrip | src/video_codec.c:154-215 | get_codec_from_fcc(get_fourcc(c)) == c for every known codec. |
| VideoCodec.UnknownFourcc | src/video_codec.c:191-215 | A FourCC in neither table maps to (codec_t) -1. |
| VideoCodec.AliasResolves | src/video_codec.c:201-213 | Every listed alias maps to a known codec whose FourCC is the alias's primary FourCC. |
| VideoCodec.AliasAbgrIsRgba | src/video_codec.c:113 | The FourCC 'ABGR' is read as RGBA. |
| VideoCodec.AliasMjpgIsJpeg | src/video_codec.c:117 | The FourCC 'MJPG' is read as JPEG. |
| CopyLine.Passes | src/video_codec.c:382 | How many times `while (dst_len >= least) dst_len -= stride` runs: zero exactly when dst_len < least. |
| CopyLine.PassesCover | src/video_codec.c:700-710 | With `while (dst_len > 0)`, the groups written cover dst_len and overshoot it by less than one group. |
| CopyLine.PassesExact | src/video_codec.c:700-710 | On a whole number n of groups, the loop runs exactly n times. |
| CopyLine.CopyFourToThree | src/video_codec.c:382-397 | The 4-words-in, 3-words-out loop: dst starts with f of every 4-word source chunk read, in order, and is unchanged after that. The returned dst_len and pointer steps match the passes made. |
| CopyLine.CopyOneToOne | src/video_codec.c:790-799 | The 1-word-in, 1-word-out loop: dst starts with f of each source word read, in order, and is unchanged after that. |
| CopyLine.CopyThreeToOne | src/video_codec.c:772-779 | The 3-bytes-in, 1-word-out loop: dst starts with f of each 3-byte source pixel read, in order, and is unchanged after that. |
| CopyLine.DropFourth | src/video_codec.c:696-711 | An RGBA pixel reduced to RGB: its first three bytes. |
| CopyLine.Top8 | src/video_codec.c:383-393 | The 8-bit value kept from a 10-bit component is its top eight bits. |
| CopyLine.RgbaToRgbLine | src/video_codec.c:696-711 | The RGBA → RGB line writes three words per group of four source words. |
| CopyLine.RgbaToRgbWords | src/video_codec.c:705-707 | Each of the three output words is made of the right R, G and B bytes of two neighbouring source pixels. |
| CopyLine.RgbaToRgbGroupBytes | src/video_codec.c:701-707 | One group's output bytes are its four pixels with the alpha byte dropped. |
| CopyLine.RgbaToRgbLineBytes | src/video_codec.c:696-711 | The whole line's output bytes are every source pixel read, in order, with the alpha byte dropped. |
| CopyLine.CopyLineRgbaToRgb | src/video_codec.c:696-711 | vc_copylineRGBAtoRGB writes the RGBA → RGB line into dst and leaves the rest of dst unchanged. |
| CopyLine.V210Pixel | src/video_codec.c:370-375 | A v210 word gives three bytes, one per 10-bit component (a, b, c); V210Word0Bytes, V210Word1Bytes and V210Word2Bytes state where each lands. |
| CopyLine.V210Tail | src/video_codec.c:398-407 | After the main loop, 8 or more bytes left write two more words and 4 to 7 bytes left write one. |
| CopyLine.V210WritesWhole | src/video_codec.c:368-408 | vc_copylinev210 writes exactly dst_len / 4 words for dst_len > 0, and none otherwise. |
| CopyLine.V210Line | src/video_codec.c:368-408 | The v210 → UYVY line has exactly as many words as the function writes. |
| CopyLine.V210Word0Bytes | src/video_codec.c:383-385 | The first output word of a group holds pixel 0's three components and pixel 1's first. |
| CopyLine.V210Word1Bytes | src/video_codec.c:386-388 | The second output word holds pixel 1's last two components and pixel 2's first two. |
| CopyLine.V210Word2Bytes | src/video_codec.c:389-393 | The third output word holds pixel 2's last component and pixel 3's three. |
| CopyLine.V210GroupBytes | src/video_codec.c:383-394 | One group's 12 output bytes are the 8-bit components of its four source words, in order. |
| CopyLine.V210GroupsBytes | src/video_codec.c:382-397 | The output bytes of all whole groups are the 8-bit components of all their source words, in order. |
| CopyLine.V210TailBytes | src/video_codec.c:398-407 | The tail's output bytes are a prefix of the components of the tail's source words. |
| CopyLine.V210LineBytes | src/video_codec.c:368-408 | The line's output bytes are the first 4·(words written) components of the source words read, in order. |
| CopyLine.CopyLineV210 | src/video_codec.c:368-408 | vc_copylinev210 writes the v210 → UYVY line into dst and leaves the rest of dst unchanged. |
| CopyLine.YuyvLine | src/video_codec.c:444-452 | The YUYV → UYVY line has one output word per source word. |
| CopyLine.YuyvWordBytes | src/video_codec.c:447-448 | Each output word swaps the two bytes of each 16-bit half of its source word. |
| CopyLine.YuyvWordTwice | src/video_codec.c:447-448 | The word swap is its own inverse. |
| CopyLine.YuyvPartner | src/video_codec.c:447-448 | Each byte position is paired with the other position of its 16-bit half. |
| CopyLine.YuyvLineBytes | src/video_codec.c:444-452 | Output byte 4i+j is source byte 4i + partner(j): every luma and chroma byte changes places with its neighbour. |
| CopyLine.YuyvLineTwice | src/video_codec.c:444-452 | Converting twice gives back the source line: YUYV ↔ UYVY is an involution. |
| CopyLine.CopyLineYuyv | src/video_codec.c:410-454 | The scalar branch of vc_copylineYUYV writes the swapped words of the dst_len / 4 source words into dst and leaves the rest of dst unchanged. dst_len must be a multiple of 4. |
| CopyLine.RgbToRgbaLine | src/video_codec.c:767-780 | The RGB → RGBA line writes one word per 3-byte source pixel. |
| CopyLine.PadPixel | src/video_codec.c:777 | An RGB pixel padded to RGBA keeps its three bytes and has a zero fourth byte. |
| CopyLine.PackRgbBytes | src/video_codec.c:777 | With the shifts 0, 8 and 16, the packed word's bytes are R, G, B and 0. |
| CopyLine.RgbToRgbaLineBytes | src/video_codec.c:767-780 | With those shifts, the line's output bytes are the source pixels, in order, each padded with a zero byte. |
| CopyLine.CopyLineRgbToRgba | src/video_codec.c:767-780 | vc_copylineRGBtoRGBA writes the RGB → RGBA line for any shifts below 32 into dst and leaves the rest of dst unchanged. |
| CopyLine.DpxPixel | src/video_codec.c:782-841 | A DPX word gives three bytes, R, G and B, from its 10-bit fields at bits 22-31, 12-21 and 2-11; DpxPixelComponents states which bits. |
| CopyLine.DpxComponents | src/video_codec.c:792-794 | The shifts and masks in the C code keep the top eight bits of each 10-bit component. |
| CopyLine.DpxPixelComponents | src/video_codec.c:791-794 | The 8-bit pixel of a DPX word is exactly the r, g and b that the C code computes. |
| CopyLine.DpxToRgbaLine | src/video_codec.c:782-800 | The DPX10 → RGBA line writes one word per source word. |
| CopyLine.DpxPaddedPixel | src/video_codec.c:796 | The RGBA pixel of a DPX word is its 8-bit RGB followed by a zero byte. |
| CopyLine.DpxPackBytes | src/video_codec.c:796 | With the shifts 0, 8 and 16, the packed word's bytes are the pixel's R, G, B and 0. |
| CopyLine.DpxToRgbaLineBytes | src/video_codec.c:782-800 | With those shifts, the line's output bytes are the source pixels, in order, each as 8-bit RGB padded with a zero byte. |
| CopyLine.CopyLineDpxToRgba | src/video_codec.c:782-800 | vc_copylineDPX10toRGBA writes the DPX10 → RGBA line into dst and leaves the rest of dst unchanged. |
| CopyLine.DpxToRgbLine | src/video_codec.c:802-841 | The DPX10 → RGB line writes three words per group of four source words. |
| CopyLine.DpxToRgbWord0Bytes | src/video_codec.c:813-823 | The first output word holds pixel 1's R, G and B and pixel 2's R. |
| CopyLine.DpxToRgbWord1Bytes | src/video_codec.c:818-830 | The second output word holds pixel 2's G and B and pixel 3's R and G. |
| CopyLine.DpxToRgbWord2Bytes | src/video_codec.c:825-837 | The third output word holds pixel 3's B and pixel 4's R, G and B. |
| CopyLine.DpxToRgbGroupBytes | src/video_codec.c:813-837 | One group's 12 output bytes are the 8-bit RGB of its four DPX words, in order. |
| CopyLine.DpxToRgbLineBytes | src/video_codec.c:802-841 | The line's output bytes are the 8-bit RGB of every source word read, in order. |
| CopyLine.CopyLineDpxToRgb | src/video_codec.c:802-841 | vc_copylineDPX10toRGB writes the DPX10 → RGB line into dst and leaves the rest of dst unchanged. |
| CopyLine.Dvs10Fields | src/video_codec.c:564-572 | The repacked word holds each 8-bit component shifted up by two, with the matching two low bits from the fourth source byte, as the 10-bit v210 fields. Its top two bits are clear. |
| CopyLine.Dvs10ThenV210 | src/video_codec.c:555-575 | Decoding the repacked v210 word to 8 bits gives back the DVS10 word's first three bytes. |
| CopyLine.Dvs10Line | src/video_codec.c:555-575 | The DVS10 → v210 line writes one word per source word. |
| CopyLine.Dvs10LineThenV210 | src/video_codec.c:555-575 | Over a whole line, the v210 pixels produced are the DVS10 source's 8-bit pixels, in order. |
| CopyLine.CopyLineDvs10ToV210 | src/video_codec.c:555-575 | vc_copylineDVS10toV210 writes the DVS10 → v210 line into dst and leaves the rest of dst unchanged. |
| Worker.PoisonSplit | src/utils/worker.cpp:132-134 | A queue holds the poison pill exactly when its head is poison or its tail holds it. |
| Worker.Step | src/utils/worker.cpp:127-141 | One pass of the loop on a non-empty queue removes the head task. |
| Worker.DrainResults | src/utils/worker.cpp:119-143 | Running the loop to the end appends the results of the tasks before the first poison pill, in queue order. The worker finishes exactly when the queue held poison. The tasks after the pill stay queued. |
| Worker.OutputsInOrder | src/utils/worker.cpp:136-141 | Without poison, result i is task i's function applied to task i's data: one result per task, in FIFO order. |
| Worker.OutputsAppend | src/utils/worker.cpp:127-141 | The results of a poison-free queue followed by more tasks are its own results followed by theirs. |
| Worker.OutputsStopAtPoison | src/utils/worker.cpp:132-134 | Once a queue holds the poison pill, tasks pushed behind it add no results. |
| Worker.PoisonCuts | src/utils/worker.cpp:86-91 | Poison pushed behind k poison-free tasks lets exactly those k tasks produce results. The tasks pushed after it are never run. |
| Worker.PushThenDrain | src/utils/worker.cpp:145-150 | Pushing more poison-free tasks before the loop runs adds exactly their results, after the earlier ones. |
| Worker.Notified | src/utils/worker.cpp:185-190 | After notify, the worker is idle and not busy. |
| Worker.Dispatched | src/utils/worker.cpp:208-212 | After dispatch, the chosen idle worker is busy and no longer idle. |
| Worker.NotifiedFacts | src/utils/worker.cpp:185-190 | Notify keeps the idle and busy sets disjoint, never loses a worker, and is idempotent. |
| Worker.DispatchedFacts | src/utils/worker.cpp:208-212 | Dispatch keeps the sets disjoint and keeps the same workers. |
| Worker.Worker.constructor | src/utils/worker.cpp:77-85 | A new worker has empty task and result queues, is running, and reports to the given pool. |
| Worker.Worker.Push | src/utils/worker.cpp:145-150 | The task is appended to the task queue. Nothing else changes. |
| Worker.Worker.Pop | src/utils/worker.cpp:152-164 | Returns the oldest result and removes it. The task queue is unchanged. |
| Worker.Worker.RunStep | src/utils/worker.cpp:119-143 | On an empty queue the worker notifies its pool and changes nothing else. Otherwise it takes the head task: poison finishes the worker, and a task's result is appended. This is exactly Step. The pool stays valid. |
| Worker.Worker.Destroy | src/utils/worker.cpp:86-95 | After the destructor's push of poison and join, the worker has finished and its pool is untouched. A running worker has first appended the results of every task queued before the first poison pill, in order. When no pill was queued, its task queue ends empty. |
| Worker.Pool.constructor | src/utils/worker.cpp:173-175 | A new pool has no idle and no busy workers. |
| Worker.Pool.Notify | src/utils/worker.cpp:185-190 | The pool's sets become Notified of the old sets. Notifying one of its own workers keeps the pool valid: the sets stay disjoint and hold only its workers. |
| Worker.Pool.RunAsync | src/utils/worker.cpp:201-218 | With an idle worker, that worker is dispatched. Otherwise a fresh worker is created and becomes busy. The returned worker gets the task appended to its queue, NULL meaning poison. The other idle workers are untouched. |
| Worker.Pool.WaitTask | src/utils/worker.cpp:220-224 | Returns the handle's oldest result and removes it. |
| Worker.Pool.Shutdown | src/utils/worker.cpp:177-183 | The pool's destructor: every idle and every busy worker is destroyed, so every one has finished. Each worker that was running has first appended the results of its tasks queued before the first pill, in order. |
| Worker.MakeTask | src/utils/worker.cpp:215 | The task pushed is poison exactly when the task function is NULL. |

## Left out

- Threads, mutexes and condition variables. The worker is modelled sequentially: one
  `RunStep` is one pass of the loop in `worker::run`.
  - The blocking wait of `worker::pop` becomes the precondition that a result exists.
  - The wait for a task in `run` becomes the empty-queue case, which only notifies.
  - Interleavings are not modelled. One example: a freshly created worker's thread may call
    `notify` before `run_async` has moved it to the busy set.
- Worker.Pool.RunAsync: `set::begin()` picks the smallest pointer. The model picks an
  arbitrary idle worker.
- A handle is the worker itself, and notify returns a worker to the idle set as soon as its
  queue is empty, before its results are collected. A reused worker's results therefore
  come out in dispatch order across handles: wait_task on a later handle returns an earlier
  task's result if that result has not been collected. The model keeps this behaviour,
  because WaitTask pops the worker's oldest result.
- The singleton `instance` and the wrappers `task_run_async` / `wait_task` are not modelled.
  `task_run_async` as written returns no value.
- Worker.Pool.Shutdown: the C destructor deletes the idle workers first and then the busy
  ones, using `for_each`. The model destroys them in one loop in an unspecified order.
  The end state is the same.
- The SSE paths of vc_copylinev210 and vc_copylineYUYV, and all SIMD code.
- Converters and helpers that are not modelled:
  - vc_copylineDVS10, vc_copyliner10k, vc_copylineRGBA, vc_copylineRGB,
    vc_copylineRGBAtoRGBwithShift and vc_copylineABGRtoRGB;
  - vc_deinterlace and show_codec_help;
  - get_bpp and vc_get_linesize, because they use the floating-point bits-per-pixel column.
- The bits-per-pixel column of codec_info is not stored.
- video_codec.h is not part of this model. The codec enumerators are taken as numbered in
  table order (RGBA = 0 … RAW = 14), which is what vc_get_linesize's indexing of codec_info
  relies on. The columns of codec_info after the bits-per-pixel value are read, in order, as
  the RGB flag, the opaque flag and the file extension. The data agree with this reading:
  the DXT codecs, JPEG and raw are the opaque ones.
- Memory layout of the converters:
  - Source and destination are separate: the source is a read-only sequence and the
    destination an array. Overlapping buffers are not modelled.
  - Byte order is little-endian.
  - The v210 bit-fields are taken as laid out low bit first.
- VideoCodec.GetHaligned: requires a non-zero alignment and no int overflow. For JPEG, RAW
  and unknown codecs the C code divides by zero.
- CopyLine.CopyLineYuyv: requires dst_len to be a multiple of 4, as the function's assert
  does. Only the scalar branch is modelled.
- Converter buffer sizes:
  - The converters write whole groups, so a dst_len that is not a multiple of the group
    size writes past dst_len (see PassesCover).
  - The preconditions ask for source and destination buffers that hold every group the
    loop reads and writes.
- CopyLine.CopyLineDpxToRgba and CopyLine.CopyLineDpxToRgb: `r << 24` on a signed int
  overflows in C for r ≥ 128. The model computes it as the unsigned 32-bit shift that
  compilers produce.
- CopyLine.CopyLineV210: the `unsigned a:10` bit-fields promote to int. So
  `(s->a >> 2) << 24`, and the same shift of b and c, overflows int for a component
  ≥ 0x200. This happens at src/video_codec.c:385, 388, 393, 401 and 406. CopyLine.V210Word0,
  V210Word1 and V210Word2 compute the unsigned 32-bit shift that compilers produce.
- VideoCodec.GetHaligned: for a width at or below minus the alignment, the truncating
  division rounds toward zero. The result is then not the least multiple at or above the
  width: -100 with alignment 48 gives -48, not -96. The model computes this C value, but
  its contract promises nothing for such widths.
- CopyLine.CopyLineRgbToRgba, CopyLine.CopyLineDpxToRgba: shift amounts of 32 or more are
  undefined in C and are excluded. The byte-level reference is proved for the shifts
  0, 8 and 16, which give RGBA order.
