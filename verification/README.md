# bpimage in Dafny

bpimage is a small image-processing library. Images are numpy arrays of
shape (h, w, 3) holding 8-bit RGB values. This project models its core:

- **The convolution engine.** `convolve.c` is the native loop. It runs over
  an edge-padded image in a flat row-major buffer, sums kernel weight times
  channel value over each window, adds a bias, clamps the sum to [0, 255]
  and stores it truncated. `_convolve` in `filters.py` is its Python
  driver: it checks the image and the kernel, pads the image with its edge
  pixels (`np.pad` in 'edge' mode), makes the padded copy contiguous,
  allocates the destination and calls the loop.
- **The filters.** The preset filters build their kernels and call
  `_convolve`: box blur, Gaussian blur, outline, sharpen, emboss, motion blur
  and smooth.
- **bpimage.py.** The helpers `_clamp` and the hand-written one-pixel
  `_pad`.
- **transform.py.** The flips and quarter turns.
- **color.py.** Grey to RGB expansion, the guard of the RGB to grey
  conversion, sepia and brighten.
- **The validators.** `validate.py` and `validation.py`.

Modules:

| module | file | models |
|---|---|---|
| `Images` | images.dfy | pixels, images, array descriptions, errors, and the clamp-then-truncate store of a channel value |
| `Sums` | sums.dfy | finite double sums over a kernel window and their algebra |
| `Layout` | layout.dfy | the row-major, C-contiguous layout of an (h, w, 3) array and its inverse |
| `BpImage` | bpimage.dfy | `_clamp`, and `_pad` as an imperative fill of a 2-D array |
| `ConvolveC` | convolve.dfy | convolve.c's loop as methods over arrays, proved against the function `ConvolveOutput` |
| `Filters` | filters.dfy | `_convolve` as the function `Convolution` (its checks, then the edge-clamped correlation), the method that drives the loop, the kernels and the presets |
| `Transform` | transform.dfy | `flipv`, `fliph`, `rotate90` |
| `Color` | color.dfy | `rgb2grayscale`'s guard, `grayscale2rgb`, `sepia`, `brighten` |
| `Validate`, `Validation` | validate.dfy, validation.dfy | `ensure_8bit_rbg` and `ensure_8bit_rgb` |

The central result comes in two parts.

- `Filters.ConvolveImage` and `Filters.PadAndConvolve` run `_convolve`'s
  path imperatively. They pad the image and lay it out row-major, allocate
  the destination and run the loop methods of `ConvolveC`. Their result is
  proved equal to the function `Filters.Convolution`.
- `Filters.OutputIsCorrelation` proves that the loop's flat destination,
  read back as (h, w, 3), equals the clamped correlation that
  `Filters.CorrelateCells` defines independently of the loop. Pixel by
  pixel, that correlation is

  sum over (ky, kx) of kernel[ky][kx] * img[clamp(y + ky - r, 0, h - 1)][clamp(x + kx - r, 0, w - 1)][c]

  plus the bias, clipped and truncated. Here r = N / 2, and the kernel is
  not flipped.

`Filters.SuccessIsCorrelation` only unfolds the success branch of
`Convolution`. It adds the facts that the image is non-empty and the
kernel is 2-D.

Where the code and its written description differ, the model follows the
code:

- `_convolve` tests `kern.shape > img.shape[:2]`, a lexicographic tuple
  comparison. A 5 x 5 kernel on a 3-pixel-high image is refused. A 3 x 3
  kernel on a 4 x 2 image passes, because the heights decide.
- An image of width 0 with a kernel of size N smaller than its height h
  passes every check of `_convolve`, and `np.pad` then raises its own
  ValueError. The model returns that error. When N >= h, the tuple guard
  refuses the image first with the size message.
- `rgb2grayscale` and `grayscale2rgb` return their ValueError as the
  function's value rather than raising it.
- The guard `ndim != 3 and shape[-1] != 3` in `rgb2grayscale` and
  `validation.py` lets through (h, w, 4) images and (h, 3) planes. On a
  0-d array it raises IndexError. All of this is modelled as written.
- Every channel is truncated after the clip, not rounded.

## Model

| member | source | states |
|---|---|---|
| `Images.Clip` | bpimage/convolve.c:74-78 | the clamp lands in [0, 255] and leaves values already in range unchanged |
| `Images.Truncate` | bpimage/convolve.c:67-69 | the cast to unsigned char drops the fraction: the byte is the largest integer not above the value |
| `Images.ToByte` | bpimage/convolve.c:67-78 | clamp-then-store: below 1 gives 0, 255 or more gives 255, in range gives the value without its fraction |
| `Images.ToByteOfByte` | bpimage/convolve.c:67-78 | a value that is already a byte is stored unchanged |
| `Layout.OffsetBound` | bpimage/convolve.c:36-39 | the offset y*s0 + x*s1 + c of a pixel channel lies inside an h x w x 3 buffer |
| `Layout.FlattenLength` | bpimage/filters.py:176-177 | the contiguous copy of an h x w image holds h * w * 3 bytes |
| `Layout.FlattenAt` | bpimage/filters.py:176-177 | in the contiguous copy, channel c of pixel (i, j) sits at byte (i*w + j)*3 + c |
| `Layout.UnflattenFlatten` | bpimage/filters.py:180-185 | reading the flat buffer back as (h, w, 3) gives the image that was laid out |
| `BpImage.Clamp` | bpimage/bpimage.py:41-42 | max(0, min(n, max_n)): in [0, max_n] when max_n >= 0, n itself when in range, 0 below, max_n above, 0 when max_n < 0 |
| `BpImage.PadSource` | bpimage/bpimage.py:44-58 | the pixel the one-pixel pad puts at (i, j) has the image's channel count and is one of the image's own pixels |
| `BpImage.PadCell` | bpimage/bpimage.py:44-58 | each cell of the padded image: centre cells are the image, border rows and columns copy the nearest edge, corners the corner pixels |
| `BpImage.FillCentre` | bpimage/bpimage.py:47 | the interior of ret receives the image and every border cell stays as it was |
| `BpImage.FillRows` | bpimage/bpimage.py:49-50 | the top and bottom border rows (without corners) copy the first and last image rows; nothing else changes |
| `BpImage.FillColumns` | bpimage/bpimage.py:51-52 | the left and right border columns (without corners) copy the first and last image columns; nothing else changes |
| `BpImage.FillCorners` | bpimage/bpimage.py:54-57 | the four corners receive the image's corner pixels; nothing else changes |
| `BpImage.Pad` | bpimage/bpimage.py:44-58 | an empty image fails with IndexError; otherwise a fresh (h+2) x (w+2) array whose every cell is the edge-replicated source pixel |
| `ConvolveC.OutputCells` | bpimage/convolve.c:45-71 | the destination has exactly the unpadded height and width, three channels per pixel |
| `ConvolveC.ConvolveOutputAt` | bpimage/convolve.c:45-71 | the destination holds h * w * 3 bytes, and byte (y*w + x)*3 + c is the clamped window sum of channel c plus the bias |
| `ConvolveC.OutputDependsOnlyOnWindow` | bpimage/convolve.c:49-64 | two padded buffers that agree on a pixel's kh x kw window give the same output there |
| `ConvolveC.CentreKernelCopiesCentre` | bpimage/convolve.c:53-69 | a kernel that is 1 at its centre and 0 elsewhere, with bias 0, copies the window's centre cell: the kernel is applied unflipped |
| `ConvolveC.Strides` | bpimage/convolve.c:36-39 | the strides computed for a row-major buffer put pixel (y, x) at its row-major offset, one pixel or one row apart |
| `ConvolveC.WindowStep` | bpimage/convolve.c:53-62 | every byte the inner loop reads is inside the padded buffer, every weight inside the kernel, and each step adds the next window term |
| `ConvolveC.OutputCellAt` | bpimage/convolve.c:64-78 | the bias is added after the whole window is summed and before the clamp |
| `ConvolveC.WindowSums` | bpimage/convolve.c:49-64 | the three accumulators, reset to 0, end as the three window sums of pixel (y, x) |
| `ConvolveC.StorePixel` | bpimage/convolve.c:64-69 | the three clamped sums go to the three bytes at the pixel offset and no other byte changes |
| `ConvolveC.ConvolvePixel` | bpimage/convolve.c:47-70 | one pixel pass writes that pixel's output and leaves every other destination byte and both inputs unchanged |
| `ConvolveC.ConvolveRow` | bpimage/convolve.c:45-71 | one row pass writes that row's output pixels and leaves every other destination byte unchanged |
| `ConvolveC.Convolve` | bpimage/convolve.c:28-72 | after the loops the destination buffer is the full convolution output, and the inputs are untouched |
| `Filters.LexGreaterPair` | bpimage/filters.py:170 | the size guard compares kernel and image heights first, widths only on a tie |
| `Filters.PadAxis` | bpimage/filters.py:175-177 | 'edge' padding of one axis by r: 2r more elements, element i being input element i - r clamped into range |
| `Filters.EdgePad` | bpimage/filters.py:175-177 | the padded image is 2r taller and wider than the source, same channel count |
| `Filters.EdgePadAt` | bpimage/filters.py:175-177 | padded cell (i, j) is source pixel (clamp(i - r), clamp(j - r)) |
| `Filters.PadIsEdgePad` | bpimage/bpimage.py:44-58 | bpimage's `_pad` equals 'edge' padding by one pixel, cell for cell |
| `Filters.Convolution` | bpimage/filters.py:162-185 | every failure is a ValueError; a success is an RGB image with the source's height and width |
| `Filters.KernelRejected` | bpimage/filters.py:167 | a kernel that passes the test is float32, 2-D and square of size 2r + 1 with r >= 1 |
| `Filters.LexGreater` | bpimage/filters.py:170 | a tuple greater than another is non-empty, differs from it, and its first entry is at least the other's |
| `Filters.ImageCheckedFirst` | bpimage/filters.py:165-166 | an image without three channels is refused with the RGB message, whatever the kernel |
| `Filters.KernelCheck` | bpimage/filters.py:167-169 | for an RGB image, the kernel message comes back exactly when the kernel is not float32, 2-D, square, odd and larger than 1 |
| `Filters.SizeGuard` | bpimage/filters.py:170-171 | for an RGB image and accepted kernel, the size message comes back exactly when the kernel shape is lexicographically greater than (h, w) |
| `Filters.SizeGuardExamples` | bpimage/filters.py:170-171 | a 5 x 5 kernel on a 3 x 3 image is refused; a 3 x 3 kernel on a 4 x 2 image is accepted |
| `Filters.EmptyWidthRejected` | bpimage/filters.py:176-177 | an image of width 0 that passes the checks fails in the edge pad with np.pad's ValueError |
| `Filters.FlatKernelAt` | bpimage/convolve.c:58 | the row-major kernel buffer holds weight (ky, kx) at kw*ky + kx |
| `Filters.FlatWindowTermAt` | bpimage/convolve.c:55-62 | the byte the loop reads for window cell (ky, kx) is channel c of padded pixel (y+ky, x+kx) |
| `Filters.WindowTermAt` | bpimage/convolve.c:55-62 | when the padded cell read for (ky, kx) is the clamped source channel, the loop's term is that channel times weight (ky, kx) |
| `Filters.EdgePadPadsFor` | bpimage/filters.py:175-177 | the edge pad by N / 2 is rectangular and has every cell the window of an N x N kernel reads |
| `Filters.EdgeSample` | bpimage/filters.py:175-177 | in rows edge-padded for an N x N kernel, window cell (ky, kx) of output pixel (y, x) is inside the buffer and holds the source channel at the clamped (y+ky-N/2, x+kx-N/2) |
| `Filters.WindowIsSample` | bpimage/convolve.c:53-64 | the window sum the loop computes equals the edge-clamped correlation sum |
| `Filters.PixelIsCorrelated` | bpimage/convolve.c:47-70 | each destination pixel is the correlated pixel |
| `Filters.OutputIsCorrelation` | bpimage/filters.py:175-185 | the whole destination, read as (h, w, 3), is the correlated image |
| `Filters.CorrelateCells` | bpimage/convolve.c:47-70 | the correlated image has the input's height, and every row has the input's width |
| `Filters.ConvolveResult` | bpimage/filters.py:175-185 | for inputs that pass the checks, the loop's output buffer, read as (h, w, 3), is what `_convolve` returns |
| `Filters.PadContiguous` | bpimage/filters.py:175-177 | a fresh buffer holding the edge-padded image row-major, (h + N - 1) * (w + N - 1) * 3 bytes long |
| `Filters.ConvolveImage` | bpimage/filters.py:162-185 | the checks in their source order, then pad, allocate and call the loop; the result equals `Convolution` |
| `Filters.PadAndConvolve` | bpimage/filters.py:175-185 | for inputs that pass the checks, padding, the contiguous copies, the destination and the loop give exactly what `_convolve` returns |
| `Filters.SuccessIsCorrelation` | bpimage/filters.py:162-185 | a successful result came from a non-empty RGB image and a 2-D kernel; it is the correlated image, as the success branch of the definition states |
| `Filters.SuccessKernel` | bpimage/filters.py:167-171 | a successful call had a 2-D, square, odd kernel larger than 1 and no taller than the image |
| `Filters.IdentityChannel` | bpimage/convolve.c:53-69 | with a centred unit impulse and bias 0, every output channel is the source channel |
| `Filters.IdentityKernel` | bpimage/filters.py:162-185 | a successful convolution with a centred unit impulse kernel returns the image unchanged |
| `Filters.UniformChannel` | bpimage/convolve.c:53-69 | on an image whose channels are all v, an output channel is v times the kernel sum plus bias, clipped and truncated |
| `Filters.UniformPixel` | bpimage/convolve.c:47-70 | on such an image all three channels of an output pixel agree |
| `Filters.UniformCells` | bpimage/filters.py:175-185 | the correlation of such an image is flat |
| `Filters.UniformImage` | bpimage/filters.py:162-185 | a successful convolution of a flat image is flat, at v times the kernel sum plus bias, clipped and truncated |
| `Filters.BoxKernelLayout` | bpimage/filters.py:57-58 | the box kernel of radius r is (2r+1)-square and every weight is 1 / size^2 |
| `Filters.BoxKernelSum` | bpimage/filters.py:57-58 | the box kernel of radius r is an accepted (2r+1)-square kernel whose weights sum to 1 |
| `Filters.Outer` | bpimage/filters.py:37 | the outer product of the profile is square in the profile's length |
| `Filters.OuterSumPositive` | bpimage/filters.py:37-38 | the sum of the outer product is at least 1, so normalising by it is well defined |
| `Filters.GaussianWeights` | bpimage/filters.py:37-38 | the normalised Gaussian kernel is square in the profile's length |
| `Filters.GaussianWeightAt` | bpimage/filters.py:37-38 | Gaussian weight (i, j) is profile[i] * profile[j] divided by the outer sum |
| `Filters.GaussianSymmetric` | bpimage/filters.py:37-38 | the Gaussian kernel is symmetric about its diagonal |
| `Filters.GaussianKernelSum` | bpimage/filters.py:33-38 | the Gaussian kernel of radius r has shape (2r+1, 2r+1), is accepted, and its weights sum to 1 |
| `Filters.SharpenKernelSum` | bpimage/filters.py:97-105 | the sharpen kernel sums to 1 for every strength s: centre 1 + 4s/5, edge neighbours -s/5, corners 0 |
| `Filters.OutlineKernelSum` | bpimage/filters.py:72-74 | the outline kernel is accepted and sums to 0 |
| `Filters.EmbossKernelSum` | bpimage/filters.py:118-120 | the emboss kernel is accepted and sums to 0 |
| `Filters.SmoothKernelSum` | bpimage/filters.py:154-158 | the smooth kernel is accepted and sums to 1 |
| `Filters.AntiDiagonal` | bpimage/filters.py:139-140 | the anti-diagonal kernel is n x n |
| `Filters.AntiDiagonalSum` | bpimage/filters.py:139-140 | n anti-diagonal weights w sum to n * w |
| `Filters.MotionBlurKernel` | bpimage/filters.py:138-140 | filling the diagonal of the left-right flipped zero array sets exactly the anti-diagonal to 1/9 |
| `Filters.MotionKernelLayout` | bpimage/filters.py:138-140 | the motion kernel is 9 x 9 with 1/9 exactly at [i][8 - i] and 0 elsewhere |
| `Filters.MotionKernelSum` | bpimage/filters.py:138-140 | the motion kernel is accepted and sums to 1 |
| `Filters.BoxBlur` | bpimage/filters.py:43-60 | the radius defaults to 1; a radius below 1 returns the image itself, otherwise the box-kernel convolution |
| `Filters.GaussianBlur` | bpimage/filters.py:17-40 | the radius defaults to 1; a radius below 1 returns the image itself, otherwise the convolution with the normalised outer product of the profile |
| `Filters.Outline` | bpimage/filters.py:63-75 | the convolution with the outline kernel, no bias |
| `Filters.Sharpen` | bpimage/filters.py:78-106 | the strength defaults to 5.0; a negative strength raises ValueError before any work, otherwise the sharpen-kernel convolution |
| `Filters.SharpenDefaultKernel` | bpimage/filters.py:78-105 | at the default strength 5.0 the kernel is [[0, -1, 0], [-1, 5, -1], [0, -1, 0]] |
| `Filters.Emboss` | bpimage/filters.py:109-126 | the convolution with the emboss kernel and bias 128 |
| `Filters.MotionBlur` | bpimage/filters.py:129-142 | the convolution with the 9 x 9 anti-diagonal kernel built in place |
| `Filters.Smooth` | bpimage/filters.py:145-159 | the convolution with the 5 x 5 smoothing kernel |
| `Filters.BoxBlurFlat` | bpimage/filters.py:43-60 | in exact arithmetic, box blurring keeps a flat image flat at the same value |
| `Filters.GaussianBlurFlat` | bpimage/filters.py:17-40 | in exact arithmetic, Gaussian blurring keeps a flat image flat at the same value |
| `Filters.SharpenFlat` | bpimage/filters.py:78-106 | in exact arithmetic, sharpening leaves a flat image unchanged at any strength |
| `Filters.MotionBlurFlat` | bpimage/filters.py:129-142 | in exact arithmetic, motion blurring keeps a flat image flat at the same value |
| `Filters.SmoothFlat` | bpimage/filters.py:145-159 | in exact arithmetic, smoothing keeps a flat image flat at the same value |
| `Filters.OutlineFlat` | bpimage/filters.py:63-75 | outline turns a flat image black |
| `Filters.EmbossFlat` | bpimage/filters.py:109-126 | emboss turns a flat image mid-grey (128) |
| `Transform.Reverse` | bpimage/transform.py:16 | the slice `[::-1]`: same length, element i is element n - 1 - i |
| `Transform.FlipV` | bpimage/transform.py:16 | same shape; pixel (i, j) is source pixel (i, w - 1 - j) |
| `Transform.FlipH` | bpimage/transform.py:28 | same shape; pixel (i, j) is source pixel (h - 1 - i, j) |
| `Transform.Transpose` | bpimage/transform.py:49 | shape (w, h); pixel (i, j) is source pixel (j, i) |
| `Transform.Turns` | bpimage/transform.py:40 | the normalised count is below 4, 0 for counts at or below 0, times mod 4 otherwise |
| `Transform.QuarterTurn` | bpimage/transform.py:51 | shape (w, h); pixel (i, j) is source pixel (j, w - 1 - i): one counter-clockwise turn |
| `Transform.HalfTurn` | bpimage/transform.py:46 | same shape; pixel (i, j) is source pixel (h - 1 - i, w - 1 - j) |
| `Transform.ThreeQuarterTurn` | bpimage/transform.py:49 | shape (w, h); pixel (i, j) is source pixel (h - 1 - j, i) |
| `Transform.Rotate90` | bpimage/transform.py:31-51 | the count defaults to 1; keeps depth; shape kept for an even number of turns, swapped for an odd one |
| `Transform.Rotate90Default` | bpimage/transform.py:31 | `rotate90(img)` with the default count is one counter-clockwise quarter turn: pixel (i, j) is source pixel (j, w - 1 - i) |
| `Transform.FlipVInvolution` | bpimage/transform.py:16 | flipping left-right twice gives the image back |
| `Transform.FlipHInvolution` | bpimage/transform.py:28 | flipping top-bottom twice gives the image back |
| `Transform.FlipsCommute` | bpimage/transform.py:16-28 | the two flips commute |
| `Transform.Rotate90Identity` | bpimage/transform.py:40-43 | negative counts and multiples of 4 give the image itself; only times mod 4 matters |
| `Transform.Rotate90Cases` | bpimage/transform.py:45-51 | rotate90 by 1, 2 and 3 is the quarter, half and three-quarter turn |
| `Transform.HalfTurnIsTwoQuarters` | bpimage/transform.py:45-51 | rotating by 2 is rotating by 1 twice |
| `Transform.ThreeQuartersIsHalfAndQuarter` | bpimage/transform.py:45-51 | rotating by 3 is rotating by 2 and then by 1 |
| `Transform.FullTurn` | bpimage/transform.py:48-51 | a quarter turn after three quarter turns gives the image back |
| `Transform.FourQuarterTurns` | bpimage/transform.py:40-51 | rotating by 1 four times gives the image back |
| `Transform.HalfTurnIsBothFlips` | bpimage/transform.py:45-46 | rotate90 by 2 equals the flips in the other order |
| `Color.Rgb2GrayscaleGuardCases` | bpimage/color.py:19-20 | the ValueError is returned exactly when the array is not 3-D and its last axis is not 3; a 0-d array raises IndexError; no other array is refused |
| `Color.Rgb2GrayscaleGuardExamples` | bpimage/color.py:19-20 | an (h, w, 4) image and an (h, 3) plane pass the guard; an (h, 5) plane is refused |
| `Color.Rgb2GrayscaleGuard` | bpimage/color.py:19-20 | the guard never yields an image; an error it returns is the ValueError "Image must be RGB."; it raises only on a 0-d array |
| `Color.Grayscale2RgbSpec` | bpimage/color.py:37-40 | a 2-D plane becomes an (h, w, 3) image with all three channels equal to the grey value; anything else returns the ValueError |
| `Color.Grayscale2Rgb` | bpimage/color.py:37-40 | a value comes back exactly for a 2-D plane, and it is a valid three-channel image |
| `Color.SepiaSpec` | bpimage/color.py:53-57 | an RGB image keeps its shape and each output channel is its tone clipped and truncated; other depths fail |
| `Color.SepiaTone` | bpimage/color.py:53-57 | no sepia tone is negative, so only the upper clip acts; a grey pixel g gives g times the sum of matrix row k |
| `Color.Sepia` | bpimage/color.py:43-57 | sepia succeeds exactly on three-channel images and then keeps their shape |
| `Color.SepiaWhiteAndBlack` | bpimage/color.py:53-57 | white becomes (255, 255, 238) and black stays black |
| `Color.Strength` | bpimage/color.py:81 | max(0, strength) is non-negative, at least the strength, and the strength itself when non-negative |
| `Color.BrightenPixel` | bpimage/color.py:80-81 | a brightened pixel keeps its channel count |
| `Color.Brighten` | bpimage/color.py:60-81 | the strength defaults to 8; the brightened image has the source's shape, depth and dtype |
| `Color.BrightenChannelByEight` | bpimage/color.py:60-81 | at the default strength 8, a channel value v becomes 8v below 32 and 255 from 32 on |
| `Color.BrightenDefault` | bpimage/color.py:60-81 | `brighten(img)` keeps the shape and maps every channel v to 8v, saturating at 255 from v = 32 |
| `Color.BrightenChannelSpec` | bpimage/color.py:80-81 | a channel becomes value * max(0, strength) without its fraction, or 255 when that is 255 or more |
| `Color.BrightenChannel` | bpimage/color.py:81 | a non-positive strength or a zero value gives 0; strength 1 keeps the value |
| `Color.BrightenNonPositive` | bpimage/color.py:80-81 | a strength of 0 or below gives a black image of the same shape |
| `Color.BrightenByOne` | bpimage/color.py:80-81 | a strength of 1 gives the original image |
| `Color.BrightenChannelAtLeast` | bpimage/color.py:80-81 | with a strength of 1 or more a channel value never decreases |
| `Color.BrightenAtLeastOne` | bpimage/color.py:80-81 | a strength of 1 or more never darkens a channel |
| `Validate.CheckOneSpec` | bpimage/validate.py:17-24 | one array passes exactly when it is contiguous, 3-D, uint8 with 3 channels; otherwise the first failing check, in source order, picks the message |
| `Validate.CheckOne` | bpimage/validate.py:17-24 | one array passes exactly when it is an 8-bit RGB array; every refusal is a ValueError |
| `Validate.NonContiguousRejected` | bpimage/validate.py:17-18 | an (h, w, 3) uint8 array is refused when not contiguous and accepted when contiguous |
| `Validate.FirstInvalid` | bpimage/validate.py:16 | every argument before the first invalid one is valid, and the one it names is invalid |
| `Validate.Ensure8BitRgbSpec` | bpimage/validate.py:16-24 | validation passes exactly when every argument is an 8-bit RGB array; otherwise the error is that of the first invalid argument |
| `Validate.Ensure8BitRgb` | bpimage/validate.py:16-24 | every refusal of the argument list is a ValueError |
| `Validate.StopsAtFirstInvalid` | bpimage/validate.py:16-24 | arguments after the first invalid one never change the outcome |
| `Validation.EnsureRgbSpec` | bpimage/validation.py:15-16 | ValueError is raised exactly when the array is not 3-D and its last axis is not 3; a 0-d array raises IndexError; every 3-D array passes |
| `Validation.EnsureRgb` | bpimage/validation.py:15-16 | every 3-D array passes; a ValueError carries the "img must be RGB with shape (h,w,3)." message |
| `Validation.EnsureRgbExamples` | bpimage/validation.py:15-16 | (h, w, 3), (h, w, 4) and (h, 3) arrays pass; an (h, w) array with w != 3 raises |

## Left out

- The ctypes binding that loads the shared library and declares the
  argument types (bpimage/filters.py:7-14) is not modelled. The model calls
  the loop directly.
- `io_utils.py` (reading and writing files) and `main.py` (the command
  line) are I/O and are not part of this model.
- `color.c` is not part of this model. It is not called by the Python
  layer, and its pixel expressions rely on unsequenced modifications.
- `affine.c`, `common.h` and the `rotate` and `rescale` stubs of
  `transform.py` are not part of this model.
- `bpimage.py`'s pure-Python `_convolve` and `blur` are not modelled. They
  are an earlier draft with different semantics, and the filters do not
  call them:
  - the kernel is flipped;
  - sample indices are clamped to the kernel size (`kh-1`, `kw-1`) instead
    of the image size;
  - there is no pad, no bias and no clip, and the raw accumulator is stored.

  `_print_pixels` is output only and is not modelled either.
- Floating point: all weights, sums and products are exact reals. float32
  rounding of the kernel weights, of the accumulators in `convolve.c`, of
  the Gaussian profile and of `brighten`'s float32 product is not modelled.
  Near an integer boundary a rounded result can differ by one from the
  model's.
- ConvolveC.WindowSums: the accumulators are exact sums. The C code sums
  float32 products in the loop order.
- Filters.GaussianBlur: takes the profile exp(-x^2 / (2 sig^2)) as a
  parameter constrained by `GaussianProfile` (odd length, non-negative,
  centre 1) instead of computing it. `exp` is not available. The
  division by zero when `sig` is 0 is outside the model. The default
  radius of 1 is kept, but the default `sig` of 1.0 has no counterpart:
  the caller supplies the profile that `sig` would determine. The model takes
  the kernel to be float32, as NumPy 1's value-based casting makes it.
  `np.square(sig)` is a float64 scalar. Under NumPy 2's promotion rules
  the profile and the kernel would be float64, and `_convolve` would refuse
  them with the kernel message.
- Color.Sepia: the failure for an image that is not RGB carries a
  stand-in ValueError message. numpy's exact matmul message is not
  modelled.
- Color.Rgb2GrayscaleGuard: the luma product `img @ [.2126, .7152, .0722]`
  after the guard is not computed. The model stops at `ComputesLuma`.
- Color.Brighten: `brighten` takes any numpy array; the model takes an image
  of any depth, but only uint8 contents.
- The filters and transforms accept only images given as 3-D uint8 grids.
  Two failures of other arrays in `_convolve` are not modelled:
  - A float or int64 (h, w, 3) array passes all three checks. It then fails
    at the ctypes call with ctypes.ArgumentError, because the argument
    types declare a uint8 3-D array (bpimage/filters.py:9-14, 183).
  - An (n, 3) plane passes the first check. `np.pad` with three pad pairs
    then raises a broadcast ValueError (bpimage/filters.py:176-177).
- Filters.PadAndConvolve: reads the kernel through `Concat(kern.weights)`,
  its row-major order. The ctypes argument type of the kernel asks for no
  contiguity flag (bpimage/filters.py:10), so a kernel given as a
  non-contiguous view, for example a transpose, would be read in memory
  order. Every preset builds a contiguous kernel.
- `np.empty` leaves the destination with arbitrary bytes. ConvolveC.Convolve
  states the destination after the loop, whatever it held before.
- The `size_t`/`int` arithmetic of `convolve.c` is not bounded. Offsets are
  unbounded integers, so an overflow for huge images is not modelled.
- numpy views: `flipv`, `fliph` and `rotate90` return views that share
  memory with the source. The model returns the re-indexed image value,
  so aliasing between the view and the source is not captured.
