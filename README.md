# News_Translator: box cropping and reply reading

This project models the logic of the Japanese newspaper helper in `app.py`
that does not depend on its UI. Streamlit sends a page image to a generative
recognition service. The service replies with JSON: a publication `date` and
an ordered list of `sections`. Each section has a `type` (`"news"` or
`"image"`), a `box_2d` of `[ymin, xmin, ymax, xmax]` on a 0-1000 scale, and
paired Japanese and Chinese text fields. The app then:

- cuts each section's box out of the page (`crop_image_section`). It scales
  the box to pixels, clamps it to the image, and gives up (`None`) when the
  box is missing, empty, not four numbers, or degenerate;
- shows the date, or `未知` when there is none;
- splits the sections into news cards and gallery images by their exact `type`;
- shows each card's headline: the Chinese one, else the Japanese one, else `無標題`;
- puts gallery image `i` into column `i % 3`, and moves the batch progress bar
  to `(idx + 1) / n` after each file.

Modules:

- `Wrappers` (`wrappers.dfy`): the `Option` type.
- `Geometry` (`geometry.dfy`): the box-to-rectangle function.
- `Response` (`response.dfy`): the parsed reply, the defaults, the split and the
  text fallbacks.
- `Layout` (`layout.dfy`): the column and progress rules.
- `Page` (`page.dfy`): everything one page shows, put together.

Coordinates use exact `real` arithmetic. A coordinate is either a number or
`NonNumeric` (any other JSON value, such as a string or null). A JSON
boolean is a number, 1 or 0, because Python's `bool` is an `int`.

Three consequences of the code are worth stating:

- A section whose `type` is not exactly `"news"` or `"image"`, `"text"`
  included, is dropped and shown nowhere (`app.py:191-192`).
- Box `[920, 100, 980, 900]` on a 2000 x 3000 page gives the crop
  x 200..1800 and y 2760..2940 (`app.py:84-87`); `Geometry.PageImageExample`
  proves it.
- `Image.open` (`app.py:179`) runs outside the `try`, so a file that is not a
  readable image ends the whole batch. Image decoding is not modelled.

## Model

| member | source | states |
|---|---|---|
| `Geometry.CropImageSection` | app.py:74-100 | a missing or empty box gives `None`, and so does a box that is not exactly four components or has a non-number component (the caught exception); any rectangle returned satisfies `0 <= left < right <= width` and `0 <= top < bottom <= height`; for a box of four numbers the result is the clamped rectangle. |
| `Geometry.Normalize` | app.py:84-98 | any rectangle returned is inside the image and has positive width and height; it holds exactly the points that lie both in the scaled box and in the image; `None` is returned only when the scaled box and the image share no interior point. |
| `Geometry.OrderedBoxIsScaledExactly` | app.py:84-93 | for an ordered box with all coordinates in `[0, 1000]` on a non-empty image, the result is exactly `(xmin*w/1000, ymin*h/1000, xmax*w/1000, ymax*h/1000)`: clamping changes nothing. |
| `Geometry.InvertedBoxIsNone` | app.py:95-96 | a box with `ymax < ymin` or `xmax < xmin` gives `None`. |
| `Geometry.FlatBoxIsNone` | app.py:95-96 | a box with `ymin == ymax` or `xmin == xmax` gives `None` on any image. |
| `Geometry.ScaleStrictlyMonotone` | app.py:84-87 | on a non-empty dimension, scaling preserves the strict order of coordinates. |
| `Geometry.ScaleInRange` | app.py:84-87 | a coordinate in `[0, 1000]` scales into `[0, dimension]`. |
| `Geometry.PageImageExample` | app.py:74-98 | box `[920, 100, 980, 900]` on a 2000 x 3000 page is cut at `(200, 2760, 1800, 2940)`. |
| `Response.Date` | app.py:186 | an absent date key reads as `未知`; a null date is shown as `None`; a string date is used as it is. |
| `Response.Sections` | app.py:188 | a missing section list reads as the empty list; a present one is used as it is. |
| `Response.Keep` | app.py:191-192 | the kept list is no longer than the input; every kept section is from the input and has exactly the given `type`; every input section with that `type` is kept. |
| `Response.KeepIsOrderedSelection` | app.py:191-192 | the kept list is a subsequence of the input (relative order preserved) and holds each section with the tag exactly as often as the input does, and no other. |
| `Response.KeepEmpty` | app.py:191-192 | the kept list is empty if and only if no section has the tag. |
| `Response.SplitIsPartition` | app.py:191-192 | news and image lists share no section; news + image + dropped sections = all sections, so the two lists hold at most `\|sections\|` items; nothing is dropped if and only if every section is `"news"` or `"image"`; a section with any other or no `type` (such as `"text"`) is in neither list. |
| `Response.Or` | app.py:209 | Python's `a or b` with an optional string `a`: the result is `a` when it is present and non-empty, and `b` otherwise. |
| `Response.MainHeadline` | app.py:209 | the headline is never empty; it is `headline_main_zh` when that is non-empty, else `headline_main_jp` when that is non-empty, else `無標題`. |
| `Response.Shown` | app.py:213-215 | an optional text behind an `if text:` guard is shown if and only if it is present and non-empty, and it is then shown unchanged. |
| `Layout.Column` | app.py:248 | the column index is below 3, and the first three images take columns 0, 1 and 2. |
| `Layout.ColumnRoundRobin` | app.py:242-248 | each next image goes one column to the right, wrapping after the third; images three apart share a column. |
| `Layout.LoadClosedForm` | app.py:242-248 | of `n` images, column `c` receives `ceil((n - c) / 3)`. |
| `Layout.LoadBalanced` | app.py:242-248 | every image is in exactly one column; a column to the left holds as many images as one to its right, or one more. |
| `Layout.Progress` | app.py:274 | the progress after file `idx` of `total` is in `(0, 1]` and is 1 exactly after the last file. |
| `Layout.ProgressAdvances` | app.py:175-274 | the progress strictly increases from one file to the next, by `1 / total` each time. |
| `Page.Read` | app.py:186-257 | the view shows the defaulted date; card `i` shows news section `i` (fallback headline, sub-headline only when non-empty, body, original text, location crop) and tile `i` shows image section `i` (crop, caption only when non-empty) in column `i % 3`, so reading order is kept; together at most `\|sections\|`; no cards or tiles without a section list; every card headline is non-empty; every crop shown lies inside the page. |
| `Page.TextSectionsAreNotShown` | app.py:191-192 | a reply whose sections are all typed `"text"` shows no card and an empty gallery. |

## Left out

- Streamlit page setup, CSS, sidebar, widgets, expanders, the display of images and text, and the download button (`app.py:10-68`, `168-276`). These are UI. `Page.Read` gives only the values they would show.
- `process_with_gemini` (`app.py:102-162`). It is a network call to an external model configured with an API key. Its prompt is a fixed string.
- `json.loads` and `json.dumps` (`app.py:185`, `260`). These are library parsing; the model takes the already-parsed reply as a `Reply` value. The error messages for a reply that is not JSON, or for another exception (`app.py:269-272`), are display only.
- Reply and section values of other JSON shapes. The model takes `sections` as absent or a list of records whose fields are optional strings, and `box_2d` as absent or a list. What the code does with the other shapes:
  - A `sections` value that is null or a number cannot be iterated. It raises inside the `try`, and the code only prints an error (`app.py:271-272`). So does a non-empty list element or string character that is not an object, because `s.get` then fails.
  - A `sections` value that is an empty string or an empty object iterates nothing. It behaves exactly like `[]`: the date and the no-news warning are shown (`app.py:191-200`).
  - A text field that is not a string goes through Python truthiness. A falsy value such as `0`, `false` or `[]` falls through to the next alternative at `app.py:209`, and is hidden by the guards at `app.py:214`, `224` and `254`. A truthy one is shown as Python renders it.
  - A `type` that is present but not a string matches neither tag, like any other unrecognised type.
  - A `box_2d` that is not a list (a string, number or object) always gives `None`. Either `not box_2d` holds (`app.py:78`), or the unpacking or division at `app.py:81-87` raises and is caught (`app.py:99-100`).
- `Image.open` and the pixel copy inside `pil_image.crop` (`app.py:179`, `98`). These are library image I/O. The model states the rectangle handed to `crop`, not the cropped pixels or PIL's rounding to whole pixels.
- Floating-point rounding in the coordinate scaling (`app.py:84-87`), including NaN and infinities, which `json.loads` accepts. Scaling is exact `real` arithmetic.
- `Geometry.CropImageSection`: does not model float overflow. JSON integers are unbounded in Python, and `xmin / 1000` raises `OverflowError` when the quotient is too large for a float (for example `box_2d = [0, 0, 10**400, 10**400]`). That exception is caught (`app.py:99-100`) and the code returns `None`, while the model clamps such a box to the whole image.
- The uploaded files' loop (`app.py:175`), the news loop (`app.py:202`) and the gallery loop (`app.py:244`) only drive rendering. They are modelled as the sequences of cards and tiles in `Page.Read`, and the progress fraction as `Layout.Progress`.
