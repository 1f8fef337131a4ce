# Licence-plate gate controller (TCC.py), modelled in Dafny

TCC.py watches a webcam. Each frame goes through three steps:

1. `detectar_placa` looks for a plate-shaped quadrilateral among the frame's contours.
2. Tesseract reads the text inside the box it finds, and line 188 cleans that text up.
3. The `while True` loop of `capturar_e_ler_ao_vivo` drives a gate with four variables. It opens for 10 seconds when an authorised plate is read, then spends 3 seconds closing.

The project models these three pieces and proves their properties. The camera, the window, OpenCV and Tesseract are outside the model.

- `detector.dfy`, module `Detector`. Contours have an abstract type `C`. `cv2.contourArea`, `cv2.arcLength`, `cv2.approxPolyDP` and `cv2.boundingRect` are the uninterpreted fields of a `Vision<C>` value. The model contains the rest:
  - `Ranked`: Python's stable `sorted(..., key=contourArea, reverse=True)`, written as an insertion sort. It is proved sorted, a permutation, stable, and the only stable descending order.
  - `Candidates`: the cut to the ten largest contours.
  - `Scan`: the loop with its early `return`.
  - `Detect`: the whole function.
- `plate_text.dfy`, module `PlateText`. `Normalize` is `texto.strip().replace(" ", "").replace("\n", "")`. `Strip` uses exactly the characters for which Python's `str.isspace()` holds.
- `gate.dfy`, module `Gate`. Class `GateController` has the four loop variables as fields:
  - `doorOpen` is `porta_aberta`.
  - `closing` is `portao_fechando`.
  - `openedAt` is `tempo_abertura`.
  - `closingAt` is `tempo_fechamento`.

  `Step` is one pass of the loop and `Run` is the loop itself. Both are proved against the pure `Transition` function, and the timing properties are lemmas about `Transition` and `RunTicks`.

  A `Tick` carries everything one pass takes from outside:
  - the clock reading at line 88;
  - the clock reading at line 99, taken when the gate starts closing;
  - the clock reading at line 221, taken after the 3-second sleep;
  - the raw OCR text of the detected box, or `None` when the detector found nothing.

  `Outcome` records which branch a pass ended in, which is what the source shows on screen. "Detection runs" in a pass exactly when its outcome is `Scanned()`.

Behaviour of the code worth knowing, which the model keeps:
- **Division by zero.** `w / h` at line 46 is unguarded. A four-vertex approximation whose box has zero height raises `ZeroDivisionError`, which ends the program. `Detect` therefore has a `DivisionByZero` outcome. `DetectWithoutFlatBoxes` shows that this outcome is impossible when boxes of four-sided polygons have positive height, which OpenCV's `boundingRect` guarantees.
- **Whitespace.** Line 188 strips whitespace from the ends, then deletes only spaces and newlines. An inner tab or carriage return survives (`NormalizeKeepsOthers`, `InnerWhitespaceIsKept`).
- **Closing stamp.** The start of closing is stamped with a second clock reading at line 99 (`Tick.closeClock`), not the line-88 reading. The same pass then compares the new stamp with the earlier reading.
- **Authorised plates.** The authorised plates are the constant list of line 9 (`AuthorizedPlates`).

## Model

| member | source | states |
|---|---|---|
| `Detector.Ranked` | TCC.py:30 | the contours in non-increasing order of area, a permutation of the input |
| `Detector.RankedIsStable` | TCC.py:30 | contours of equal area keep their input order (Python's `sorted` is stable, also with `reverse=True`) |
| `Detector.StableOrderIsUnique` | TCC.py:30 | two different orders sorted by decreasing area disagree within some area; with the stability lemma, `Ranked` is exactly the order `sorted` returns |
| `Detector.Approximation` | TCC.py:36-39 | the contour simplified with tolerance `0.018` times its closed perimeter |
| `Detector.Ratio` | TCC.py:46 | for `h != 0`, the quotient `w / h`: multiplied back by `h` it gives `w` |
| `Detector.Candidates` | TCC.py:30 | the first `min(10, n)` contours of the ranked order, no more |
| `Detector.RatioTest` | TCC.py:43-49 | for `h != 0`, the float test `2 < w / h < 6` holds exactly when `2*h < w < 6*h` with `h > 0` |
| `Detector.Scan` | TCC.py:33-53 | a box returned by the loop passes the ratio test and is the bounding box of a scanned four-vertex approximation |
| `Detector.ScanStopsAtFirstDecisive` | TCC.py:33-50 | the loop returns at the first contour with four vertices whose box either has zero height (Python raises) or passes the ratio test |
| `Detector.ScanNotFound` | TCC.py:33-53 | the loop finishes without a result exactly when no scanned contour is such a stopping point |
| `Detector.ScanStoppedSomewhere` | TCC.py:33-50 | a loop that does not fall through stopped at a first stopping contour, and returned its verdict |
| `Detector.Detect` | TCC.py:15-53 | a found box satisfies `2*h < w < 6*h` with `h > 0`, and it comes from a four-vertex contour ranked among the ten largest |
| `Detector.DetectFirstDecisive` | TCC.py:30-50 | the result is decided by the first stopping contour among the ten largest, in ranked order |
| `Detector.DetectNotFound` | TCC.py:30-53 | `None` exactly when none of the ten largest contours is a stopping point |
| `Detector.TopTenOnly` | TCC.py:30-33 | when every stopping contour (four vertices, and a zero-height or plate-shaped box) ranks eleventh or lower, the result is `None` |
| `Detector.DetectWithoutFlatBoxes` | TCC.py:30-53 | with no zero-height boxes, there is no division error, and `None` exactly when none of the ten largest has four vertices and a ratio in (2, 6) |
| `Detector.DetectFoundOrigin` | TCC.py:30-50 | a found box comes from the first qualifying contour of rank below 10, and no contour of strictly larger area qualifies |
| `PlateText.IsSpace` | TCC.py:188 | the characters Python's `str.isspace()` accepts, which `strip()` removes |
| `PlateText.StripLeading` | TCC.py:188 | `lstrip`: a suffix of the input, all removed characters whitespace, not starting with whitespace |
| `PlateText.StripTrailing` | TCC.py:188 | `rstrip`: a prefix of the input, all removed characters whitespace, not ending with whitespace |
| `PlateText.Strip` | TCC.py:188 | `strip()`: a contiguous piece of the input with only whitespace cut away on either side, neither starting nor ending with whitespace |
| `PlateText.Remove` | TCC.py:188 | `replace(ch, "")`: the result has no `ch` and only characters of the input |
| `PlateText.RemoveKeepsOthers` | TCC.py:188 | `replace(ch, "")` keeps every occurrence of every character other than `ch` |
| `PlateText.Normalize` | TCC.py:188 | the cleaned text contains no space and no newline |
| `PlateText.NormalizeIsTrimmed` | TCC.py:188 | the cleaned text neither starts nor ends with whitespace |
| `PlateText.NormalizeKeepsOrder` | TCC.py:188 | the cleaned text is a subsequence of the raw text, so the kept characters keep their relative order |
| `PlateText.NormalizeKeepsNonSpace` | TCC.py:188 | every non-whitespace character of the raw text survives, in order |
| `PlateText.StripKeepsNonSpace` | TCC.py:188 | stripping removes whitespace only |
| `PlateText.RemoveSpaceKeepsNonSpace` | TCC.py:188 | deleting a whitespace character loses no other character |
| `PlateText.NormalizeIdempotent` | TCC.py:188 | cleaning an already cleaned text changes nothing |
| `PlateText.NormalizeLeavesCleanText` | TCC.py:188 | a text without whitespace comes through unchanged |
| `PlateText.NormalizeKeepsOthers` | TCC.py:188 | every character other than space and newline occurs in the plate text as often as in the stripped text |
| `PlateText.InnerWhitespaceIsKept` | TCC.py:188 | a text without spaces and newlines and with non-whitespace ends comes through unchanged, inner tabs and carriage returns included |
| `Gate.Decide` | TCC.py:168-232 | detection reached with the gate idle opens the gate exactly on an authorised text of 7 or more characters, stamped with the post-sleep clock and nothing else changed; otherwise nothing changes |
| `Gate.Transition` | TCC.py:88-232 | one pass never sets open and closing together when they were not, and holds open, without reading a plate, exactly when open for less than 10 seconds |
| `Gate.RunTicks` | TCC.py:80-238 | the loop as a function of the passes: one outcome per pass, each pass applied to the state the previous one left |
| `Gate.GateController.constructor` | TCC.py:72-77 | the loop starts with the gate neither open nor closing and both stamps 0 |
| `Gate.GateController.Step` | TCC.py:80-238 | the in-place pass updates the four variables as `Transition` says and keeps them exclusive |
| `Gate.GateController.Run` | TCC.py:80-238 | the loop over a sequence of passes ends in the state and outcomes of `RunTicks` |
| `Gate.OpenWaits` | TCC.py:93-127 | open for less than 10 seconds: state unchanged, no detection |
| `Gate.OpenStartsClosing` | TCC.py:93-153 | open for 10 seconds or more: closing, stamped with the line-99 clock, and the same pass stays closing without detection |
| `Gate.ClosingWaits` | TCC.py:132-153 | closing for less than 3 seconds: state unchanged, no detection |
| `Gate.ClosingEnds` | TCC.py:132-168 | closing for 3 seconds or more: idle, and the same pass goes on to detection |
| `Gate.IdleAuthorized` | TCC.py:198-221 | idle with an authorised text of 7 or more characters: opens, stamped at least 3 seconds after the pass began |
| `Gate.IdleShortTextIgnored` | TCC.py:198 | idle with a text shorter than 7 characters: nothing changes, whether or not it is listed |
| `Gate.IdleDenied` | TCC.py:198-232 | idle with an unlisted text of 7 or more characters: nothing changes |
| `Gate.IdleNoPlate` | TCC.py:168-170 | idle and no box found: nothing changes |
| `Gate.RunKeepsExclusive` | TCC.py:72-73 | over any run of passes, open and closing are never both set |
| `Gate.OpenHoldsUntilDeadline` | TCC.py:93-127 | while every pass is less than 10 seconds after opening, the gate stays open and no plate is read, so no second authorisation happens |
| `Gate.RunAppend` | TCC.py:80-238 | running two stretches of passes in turn is running them together |
| `Gate.GateCycle` | TCC.py:93-221 | authorised, then open, then closing at 10 s, then idle and reading plates again 3 s after the closing stamp |
| `Gate.AuthorizedExample` | TCC.py:9 | "ABC1234" opens an idle gate |
| `Gate.ShortTextExample` | TCC.py:198 | "AB123" is too short and changes nothing |
| `Gate.ClosingExample` | TCC.py:96-99 | opened at 0, a pass at 10 starts closing with stamp 10 |

## Left out

- Camera and window: `cv2.VideoCapture`, `cap.read`, `imshow`, `waitKey` and the 'q' exit, the `putText`/`rectangle` overlays, `print`, `release`/`destroyAllWindows`. A failed frame read or 'q' ends the loop; `Run` models the loop over the finite sequence of passes before that.
- The image pipeline: `cvtColor`, `bilateralFilter(…, 11, 17, 17)`, `Canny(…, 30, 200)` and `findContours`. The detector takes the contours as input.
- The four OpenCV measurements (`contourArea`, `arcLength`, `approxPolyDP`, `boundingRect`) are uninterpreted. Only the tolerance `0.018 * arcLength` is part of the model.
- Tesseract OCR and its configuration (mode 8, uppercase and digit whitelist, the Windows executable path), and the crop `frame[y:y+h, x:x+w]`. Step takes the raw OCR text as input.
- The detector's `DivisionByZero` outcome is not passed to Step. In the source it is an uncaught exception that ends the program.
- Floating point: areas, lengths, the ratio and clock readings are `real`.
  - The ratio test uses exact division. Python's correctly rounded `w / h` gives the same comparison for any image of realistic size.
- `time.sleep(3)` is not modelled as waiting. It is the post-sleep clock reading `Tick.openClock`, and `Tick.WellTimed` says that reading is at least 3 seconds after the pass began.
- The countdown `restante` (line 112) only feeds the display.
