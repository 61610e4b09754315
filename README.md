# Palm detection demo: flag parsing and result rendering

A Dafny model of the two pieces of logic in the MediaPipe palm detection demo
script (`models/palm_detection_mediapipe/demo.py`):

- `str2bool`, the parser for the script's boolean switches. It accepts
  `on`, `yes`, `true`, `y` and `t` as true and `off`, `no`, `false`, `n` and
  `f` as false, in any letter case. Any other word raises NotImplementedError.
- `visualize(image, results, print_results, fps)`. It copies the frame. It
  draws an optional FPS label on the copy. Then, for each detection row, it
  splits the row into box, landmarks and score by position, truncates the
  coordinates to int32, and draws a score label, a box outline and one circle
  per landmark. When asked, it also prints an 11-line block per palm,
  numbered from 1. It returns the copy.

Modules:

| file | module | contents |
|---|---|---|
| results.dfy | `Results` | `Option` (Python's `None`) and `Result` (a value, or the exception raised instead) |
| flags.dfy | `Flags` | `Lower`, `Str2Bool` and their lemmas |
| int32.dfy | `Int32` | `astype(np.int32)` on reals, and int32 wrap-around |
| detections.dfy | `Detections` | detection rows, `reshape(7, 2)`, splitting one row and a list of rows |
| blocks.dfy | `Blocks` | a list made of one block per item, the shape shared by the commands and the report |
| drawing.dfy | `Drawing` | the OpenCV calls as draw commands, and the command list of one frame |
| report.dfy | `Reporting` | the printed report as line records |
| visualize.dfy | `Visualize` | the frame as a class, and `visualize` as a method with its loops |

The frame is a class `Frame`. Its `pixels` field holds the raster it was
created with, as an opaque byte sequence. Its `strokes` field lists the
drawing calls made on it, oldest first. `image.copy()` is `Frame.Copy`, which
allocates a new frame. Each `cv.putText`, `cv.rectangle` and `cv.circle` call
is a `Frame` method that appends one command. `Visualize` has no `modifies`
clause. So Dafny checks that the caller's frame is not touched
(`ensures unchanged(image)`), and every command lands on the fresh copy. The
printed report is returned as a list of `ReportLine` records.

A detection row must hold 19 values. `palm[4:-1]` must hold the 14 values
that `reshape(7, 2)` needs: 4 box values, then 14 landmark values, then the
score. An empty row fails at `palm[-1]` (IndexError). Any other length fails
at the reshape. A row that cannot be split raises out of `visualize`. The
model returns `Err` with the row's index and error, plus the lines already
printed for the rows before it.

The score label's baseline `palm_box[1] + 12` is computed with NumPy 2
promotion rules: an `int32` scalar plus a Python int stays `int32` and wraps
around.

Facts about the code that the model keeps:
- The code rejects a malformed row only because the slicing and reshaping fail. It has no separate check of the box's arity.
- The code does not check for a zero-area frame.
- The landmark circles get thickness 2, so they are outlines, not filled discs.
- If a later row is malformed, the report lines of the earlier rows have already been printed.

## Model

| member | source | states |
|---|---|---|
| Flags.Lower | models/palm_detection_mediapipe/demo.py:9 | `v.lower()` keeps the length and lowers each character in place |
| Flags.Str2Bool | models/palm_detection_mediapipe/demo.py:8-14 | true exactly when the lowered word is one of on/yes/true/y/t; false exactly when it is one of off/no/false/n/f; an error (NotImplementedError) exactly when it is neither |
| Flags.WordSetsDisjoint | models/palm_detection_mediapipe/demo.py:9-11 | no word is in both lists, so the answer is well defined |
| Flags.LowerIdempotent | models/palm_detection_mediapipe/demo.py:9-11 | a lowered string has no upper-case letter, and lowering it again changes nothing |
| Flags.Str2BoolCaseInsensitive | models/palm_detection_mediapipe/demo.py:8-14 | `str2bool(v) == str2bool(v.lower())` |
| Flags.Str2BoolSameIgnoringCase | models/palm_detection_mediapipe/demo.py:8-14 | two strings that agree after lowering get the same answer |
| Flags.Str2BoolTrueExamples | models/palm_detection_mediapipe/demo.py:9-10 | "True" and "YES" parse as true |
| Flags.Str2BoolFalseExamples | models/palm_detection_mediapipe/demo.py:11-12 | "False" and "oFF" parse as false |
| Flags.Str2BoolRefusedExamples | models/palm_detection_mediapipe/demo.py:13-14 | "1", "" and "Yess" raise NotImplementedError |
| Int32.TruncRoundsTowardZero | models/palm_detection_mediapipe/demo.py:51 | dropping the fraction rounds non-negative values down and negative values up |
| Int32.CastInt32Truncates | models/palm_detection_mediapipe/demo.py:51 | `astype(np.int32)` always yields an int32; it truncates toward zero when the result fits, and yields INT32_MIN otherwise |
| Int32.TruncOdd | models/palm_detection_mediapipe/demo.py:58 | truncation is symmetric about zero: trunc(-x) = -trunc(x) |
| Int32.TruncIsNotFloor | models/palm_detection_mediapipe/demo.py:58 | truncation differs from the floor on negative non-integers (-0.5 gives 0, -2.7 gives -2) |
| Int32.WrapIsTwosComplement | models/palm_detection_mediapipe/demo.py:52 | under NumPy 2 promotion, the int32 sum `palm_box[1] + 12` is an int32 congruent to the exact sum modulo 2^32, and equals it when the exact sum fits |
| Int32.Wrap | models/palm_detection_mediapipe/demo.py:52 | the int32 addition of `palm_box[1] + 12` (NumPy 2 promotion); always an int32; congruence and identity on int32 values are in WrapIsTwosComplement |
| Int32.CastInt32 | models/palm_detection_mediapipe/demo.py:51 | `astype(np.int32)` of one value (also used for the landmarks at line 58) always yields an int32; truncation toward zero and the out-of-range value are in CastInt32Truncates, TruncOdd and TruncIsNotFloor |
| Detections.Pairs | models/palm_detection_mediapipe/demo.py:48 | reshaping into n x 2 gives n rows, and row i is (s[2i], s[2i+1]) |
| Detections.Reshape7x2 | models/palm_detection_mediapipe/demo.py:48 | `reshape(7, 2)` succeeds exactly when the slice holds 14 values |
| Detections.SplitRow | models/palm_detection_mediapipe/demo.py:46-48 | IndexError exactly for an empty row; reshape error exactly for any other length except 19; on success, seven landmarks |
| Detections.SplitRowFields | models/palm_detection_mediapipe/demo.py:46-48 | a 19-value row splits. The box is values 0-3, landmark i is values 4+2i and 5+2i, the score is value 18 |
| Detections.PairsUnpairs | models/palm_detection_mediapipe/demo.py:48 | reshaping the flattened landmarks gives them back |
| Detections.UnpairsPairs | models/palm_detection_mediapipe/demo.py:48 | flattening a reshaped even-length slice gives it back |
| Detections.SplitFlatten | models/palm_detection_mediapipe/demo.py:46-48 | flattening a detection with seven landmarks gives a row that splits back into it |
| Detections.FlattenSplit | models/palm_detection_mediapipe/demo.py:46-48 | every row that splits is the flattening of what it split into |
| Detections.SplitRows | models/palm_detection_mediapipe/demo.py:45-48 | the row splits done by the loop over rows, up to the first row that raises. Without a failure there is one detection per row. A failure names the index of the first bad row, which equals the number of detections before it. The full characterisation is in SplitRowsSpec, SplitRowsWellShaped and SplitRowsStopsAtFailure |
| Detections.SplitRowsSpec | models/palm_detection_mediapipe/demo.py:45-48 | the loop over rows stops at the first row that raises. The detections are the earlier rows split one by one. Without a failure, every row was split |
| Detections.SplitRowsWellShaped | models/palm_detection_mediapipe/demo.py:45-48 | every detection taken from the rows has seven landmarks |
| Detections.SplitRowsStopsAtFailure | models/palm_detection_mediapipe/demo.py:45-48 | once a row has raised, later rows are never looked at |
| Drawing.CastBox | models/palm_detection_mediapipe/demo.py:51 | `palm_box.astype(np.int32)`: all four corners are int32 values, each cast as in CastInt32 |
| Drawing.CastLandmarks | models/palm_detection_mediapipe/demo.py:58 | the cast landmark array has one point per landmark |
| Drawing.Markers | models/palm_detection_mediapipe/demo.py:59-60 | one circle per landmark point, in landmark order |
| Drawing.PalmCommands | models/palm_detection_mediapipe/demo.py:50-60 | the commands one palm draws: the score text and the rectangle, then one per landmark; their arguments are in CommandLayout |
| Drawing.Commands | models/palm_detection_mediapipe/demo.py:42-60 | every command `visualize` draws, in order; its count is in CommandCount, its FPS label in FpsLabelIff, each palm's commands in CommandLayout |
| Drawing.PalmsCommandsSnoc | models/palm_detection_mediapipe/demo.py:45-60 | each turn of the loop over palms appends exactly that palm's commands |
| Drawing.PalmsCommandsLength | models/palm_detection_mediapipe/demo.py:45-60 | nine commands per palm |
| Drawing.PalmsCommandsAt | models/palm_detection_mediapipe/demo.py:45-60 | palm k's commands are at positions 9k to 9k+8 of the palm commands, in input order |
| Drawing.CommandCount | models/palm_detection_mediapipe/demo.py:42-60 | the command count is (1 if fps is given, else 0) + 9 × number of palms. With no fps and no palms there are no commands |
| Drawing.PalmsCommandsHaveNoFps | models/palm_detection_mediapipe/demo.py:45-60 | no per-palm command is an FPS label |
| Drawing.FpsLabelIff | models/palm_detection_mediapipe/demo.py:42-43 | an FPS label is drawn if and only if fps is not None. It is then the first command, at (0, 15), scale 0.5, red |
| Drawing.CommandLayout | models/palm_detection_mediapipe/demo.py:45-60 | for palm k, after the FPS label: the score text at (x1, y1+12); then the rectangle from (x1, y1) to (x2, y2) with thickness 2; then a radius-2 circle at each of the 7 truncated landmarks |
| Reporting.LandmarkLines | models/palm_detection_mediapipe/demo.py:68-69 | one tab-indented line per landmark point, in order |
| Reporting.PalmReport | models/palm_detection_mediapipe/demo.py:64-69 | the block printed for one palm begins with its numbered header and has four lines plus one per landmark; the full layout is in ReportLayout |
| Reporting.Report | models/palm_detection_mediapipe/demo.py:63-69 | everything the loop over palms prints, block after block; its length, positions and layout are in ReportLength, ReportAt and ReportLayout |
| Reporting.ReportSnoc | models/palm_detection_mediapipe/demo.py:63-69 | each printed palm appends its block, numbered one past the palms before it |
| Reporting.ReportLength | models/palm_detection_mediapipe/demo.py:63-69 | eleven lines per palm |
| Reporting.ReportAt | models/palm_detection_mediapipe/demo.py:63-69 | line 11k+j of the report is line j of palm k's block, and that block is numbered k+1 |
| Reporting.ReportLayout | models/palm_detection_mediapipe/demo.py:63-69 | palm k's block is its header `palm k+1`, its score, its int32 box, the `palm landmarks:` line, then its 7 int32 landmarks |
| Visualize.Frame.Copy | models/palm_detection_mediapipe/demo.py:40 | `image.copy()` is a fresh frame with the same contents |
| Visualize.Frame.PutText | models/palm_detection_mediapipe/demo.py:43 | a text call appends one stroke and leaves `pixels` (the base raster) unchanged |
| Visualize.Frame.Rectangle | models/palm_detection_mediapipe/demo.py:55 | a rectangle call appends one stroke and leaves `pixels` (the base raster) unchanged |
| Visualize.Frame.Circle | models/palm_detection_mediapipe/demo.py:60 | a circle call appends one stroke and leaves `pixels` (the base raster) unchanged |
| Visualize.DrawPalm | models/palm_detection_mediapipe/demo.py:50-60 | drawing one palm appends exactly that palm's nine commands to the frame |
| Visualize.PrintPalm | models/palm_detection_mediapipe/demo.py:63-69 | the lines printed for a palm are that palm's report block, with its number |
| Visualize.AnnotatePalm | models/palm_detection_mediapipe/demo.py:50-69 | one turn of the loop over palms draws that palm, and prints its block only when `print_results` is set |
| Visualize.AnnotatePalms | models/palm_detection_mediapipe/demo.py:45-69 | the loop over palms stops at the first bad row and then reports it. Without one, it draws every palm's commands in input order. It prints the report of the palms it reached only when `print_results` is set |
| Visualize.Visualize | models/palm_detection_mediapipe/demo.py:39-71 | the input frame is unchanged. On success the result is a fresh copy with the same pixels, plus the FPS label (if fps is given) and every palm's commands. A bad row raises with its index. The printed lines are the report of the palms before any failure, and nothing unless `print_results` is set |

## Left out

- Argument parsing and the module-level `args` (demo.py:28-37) are command-line plumbing. A NotImplementedError raised from `str2bool` inside argparse is not modelled either.
- The probe for the TIM-VX backend and NPU target (demo.py:16-26) is not modelled. It is a bare `try/except` around attributes of the OpenCV module.
- `MPPalmDet` (its constructor, `infer`, the score threshold and NMS; demo.py:6, 75-79, 86, 116) is not part of this model. `visualize` receives its results as given rows.
- Image and camera I/O, the TickMeter FPS measurement, and the main loops (demo.py:73-125) are left out. The fps value is a parameter of `Visualize`.
- The pixel rasterisation done by `cv.putText`, `cv.rectangle` and `cv.circle` is not modelled. Each call is kept as an opaque command with its font, scale, colour and thickness.
- The decimal formatting of the labels and report lines (`{:.2f}`, `{:.4f}`, numpy's array printing) is not modelled. Labels and lines carry the value they print.
- Floating point is modelled as exact reals, so float32 rounding, NaN and infinities are not modelled.
- Flags.Lower: lowers ASCII letters only. Python's `str.lower()` also changes other characters. The only ones that become an ASCII letter are the Kelvin sign (to `k`) and U+0130 (to `i` followed by a combining dot). Neither `k` nor `i` occurs in any accepted word, so `Str2Bool` classifies every string as the source does.
- Int32.Wrap: assumes NumPy 2 promotion (NEP 50), where `int32 + 12` stays int32 and wraps. Under NumPy 1.x the sum becomes int64 and does not wrap. The RuntimeWarning that NumPy 2 emits on overflow is not modelled.
- Int32.CastInt32Truncates: for a value whose truncation does not fit an int32, numpy's result is platform-dependent. The model takes INT32_MIN, which is what x86 produces.
