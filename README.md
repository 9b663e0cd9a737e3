# Animated portfolio site: a verified model of its stateful core

The site is a single-page portfolio for a motion designer. Most of it is declarative animation markup. This project models, in Dafny, the parts that compute values or keep state:

- **Colour interpolation** (`Colour`, `colour.dfy`). `lerpColor` splits two `0xRRGGBB` colours into channels with JavaScript's 32-bit `>>` and `&`, rounds each interpolated channel with `Math.round`, and packs the result with `<<` and `|`. The model writes the ToInt32 conversion and the bitwise or out as arithmetic, so it matches the code for every integer colour and every real `t`, up to the double rounding of `r1 + (r2 - r1) * t` listed under Left out.
- **Scroll-driven scene** (`Scene`, `scene.dfy`). This covers the sunrise and sunset palettes, the seven colours pushed to the cloud background on each scroll-progress change, and the fade-in of the star layer, `max(0, (p - 0.5) * 2)`.
- **Stardust trail** (`Stardust`, `stardust.dfy`). This is the star cursor's bounded trail, a class holding a sequence. A mouse move appends a fresh point and keeps the newest 20. A tick takes 8 hundredths from every point's opacity and 5 from its scale, then drops the points with no opacity left.
- **Particle buffers** (`Particles`, `particles.dfy`). One loop fills four preallocated arrays: positions in a cube, per-axis seeds, colours decoded from `#rrggbb` palette strings, and sizes. Pointer positions are normalised to [-1, 1]² with Y pointing up. The random draws are an input sequence, eight per particle, in the order the loop makes them.
- **Contact form** (`Contact`, `contact.dfy`). The form's fields, `isSubmitting` and `submitted` are a class with one method per event. The submit button's label, disabled flag and success style are a pure function of that state.
- **Gallery** (`Portfolio`, `portfolio.dfy`). This covers category filtering with an `"all"` passthrough, the first three tags of a card, and the `filter`/`hoveredId`/`selectedProject` state.
- **Shared helpers** (`Sequences`, `sequences.dfy`). An `Option` type and the order-preserving subsequence relation that the trail and the filter both promise.

Notes on how the code behaves, where a reader might expect otherwise:

- `lerpColor` clamps neither `t` nor the channels. Past `t = 1`, a channel can carry into its neighbour (`Colour.UnclampedBlueBleedsIntoGreen`). Its own caller only passes scroll progress in [0, 1].
- The star-layer fade has no upper clamp. It stays at or below 1 only because progress does.
- `particleSpread` is the full edge of the cube. The computed coordinates lie in [-spread/2, spread/2) and the computed sizes in [0.5, 1), half-open, because draws lie in [0, 1). Once stored in the 32-bit float buffers, a value next to the upper bound can round up onto it, so the stored entries lie in the closed ranges [-spread/2, spread/2] and [0.5, 1].
- A particle count of 0 is accepted and gives empty buffers. An empty palette only fails when there is at least one particle: the lookup gives `undefined` and `.slice` throws. The model returns `ok == false` in that case.

## Model

| member | source | states |
|---|---|---|
| Colour.Red | src/App.jsx:134 | `(c >> 16) & 0xff` is a value in [0, 255] for every integer c |
| Colour.Green | src/App.jsx:135 | `(c >> 8) & 0xff` is a value in [0, 255] for every integer c |
| Colour.Blue | src/App.jsx:136 | `c & 0xff` is a value in [0, 255] for every integer c |
| Colour.ToInt32 | src/App.jsx:146 | the 32-bit conversion the bitwise operators apply gives the unique int32 congruent to its input modulo 2^32 |
| Colour.BitOrDisjoint | src/App.jsx:146 | or-ing a value into zero low bits equals adding it, which is why `(r << 16) \| (g << 8) \| b` places the channels side by side |
| Colour.PackInRange | src/App.jsx:146 | for channels in [0, 255] the packed value is r·65536 + g·256 + b |
| Colour.ChannelsOfPack | src/App.jsx:134-146 | packing three channels in [0, 255] gives a 24-bit colour whose extracted channels are those three |
| Colour.PackChannels | src/App.jsx:134-146 | repacking the three extracted channels of any integer gives its low 24 bits back, so a 24-bit colour round-trips |
| Colour.RoundInt | src/App.jsx:142 | `Math.round` leaves an integer unchanged |
| Colour.LerpChannelBetween | src/App.jsx:142-144 | for t in [0, 1] a rounded interpolated channel lies between its two endpoints |
| Colour.LerpSame | src/App.jsx:133-147 | `lerpColor(c, c, t)` is c for every 24-bit c and every real t (c's low 24 bits in general) |
| Colour.LerpEndpoints | src/App.jsx:133-147 | t = 0 gives the first colour and t = 1 the second (reduced to 24 bits) |
| Colour.LerpBetween | src/App.jsx:133-147 | for t in [0, 1] the result is a 24-bit colour and each of its channels lies between the matching input channels |
| Colour.HalfwayGrey | src/App.jsx:133-147 | black to white at t = 0.5 gives 0x808080, because 127.5 rounds up |
| Colour.UnclampedBlueBleedsIntoGreen | src/App.jsx:142-146 | with t = 2 the blue channel reaches 510 and its ninth bit lands in green, so nothing is clamped |
| Colour.BitOr | src/App.jsx:146 | the bit-by-bit or of two non-negative bit patterns is at most their sum; BitOrDisjoint gives its value when the bits are disjoint |
| Colour.Or32 | src/App.jsx:146 | JavaScript `x \| y` gives an int32 congruent modulo 2^32 to the bitwise or of the two operands' 32-bit patterns |
| Colour.Shl32 | src/App.jsx:146 | JavaScript `x << k` gives the int32 congruent to x·2^k modulo 2^32 |
| Colour.Pack | src/App.jsx:146 | `(r << 16) \| (g << 8) \| b` is an int32; for channels in [0, 255], PackInRange, ChannelsOfPack and PackChannels give its value |
| Colour.Round | src/App.jsx:142-144 | `Math.round(x)` is the integer n with n - 1/2 ≤ x < n + 1/2, so halves round up |
| Colour.LerpChannel | src/App.jsx:142-144 | the rounded channel lies within one half of `a + (b - a) * t`, halves rounding up; LerpChannelBetween bounds it by the endpoints |
| Colour.LerpColor | src/App.jsx:133-147 | the result is an int32; its value is stated by LerpSame, LerpEndpoints, LerpBetween, HalfwayGrey and UnclampedBlueBleedsIntoGreen |
| Scene.PaletteEndpoints | src/App.jsx:150-168 | progress 0 pushes exactly the sunrise palette and progress 1 exactly the sunset palette |
| Scene.BackgroundFixed | src/App.jsx:215 | the pushed background colour is 0x89f0d1 for every progress, since both palettes share it |
| Scene.PaletteValid | src/App.jsx:214-222 | for progress in [0, 1] all seven pushed colours are valid 24-bit colours |
| Scene.ParticlesFade | src/App.jsx:225 | the star-layer opacity is never negative, is 0 up to progress 0.5, rises as 2p - 1 after it, is 1 at progress 1 and at most 1 on [0, 1] |
| Scene.FadeMonotone | src/App.jsx:225 | scrolling further down never lowers the star-layer opacity |
| Scene.SceneController.constructor | src/App.jsx:174-198 | the scene starts with the sunrise colours and opacity 0, which is exactly the state for progress 0 |
| Scene.SceneController.OnProgressChange | src/App.jsx:210-227 | a progress change pushes the interpolated palette and the fade; the background stays 0x89f0d1 and, for progress in [0, 1], all colours are valid and the opacity is in [0, 1] |
| Scene.Sunrise | src/App.jsx:150-158 | constant, no contract of its own: the seven sunrise colours; PaletteEndpoints shows it is what progress 0 pushes |
| Scene.Sunset | src/App.jsx:160-168 | constant, no contract of its own: the seven sunset colours; PaletteEndpoints shows it is what progress 1 pushes |
| Scene.PaletteAt | src/App.jsx:214-222 | no contract of its own: the seven colours pushed for progress t; PaletteEndpoints, BackgroundFixed and PaletteValid state its properties |
| Stardust.Appended | src/App.jsx:23-26 | a move keeps min(n + 1, 20) points, which form a suffix of the old trail with the new point appended and end with the new point |
| Stardust.DecayAll | src/App.jsx:47-48 | the map keeps the length and decays every point in place |
| Stardust.DropFaded | src/App.jsx:49 | the filter keeps exactly the points with opacity above 0, in their original order |
| Stardust.Ticked | src/App.jsx:46-50 | a tick never lengthens the trail; its result is an order-preserving subsequence of the decayed trail, every survivor has positive opacity, and every point with opacity above 8 survives decayed by exactly 8 and 5 hundredths |
| Stardust.DecayAllConcat | src/App.jsx:47-48 | decaying a concatenation decays each part |
| Stardust.DropFadedConcat | src/App.jsx:49 | filtering a concatenation filters each part |
| Stardust.TickedConcat | src/App.jsx:46-50 | a tick acts point by point: ticking a concatenation ticks each part |
| Stardust.TickNConcat | src/App.jsx:45-51 | any number of ticks also acts point by point |
| Stardust.TickNEmpty | src/App.jsx:45-51 | ticking an empty trail keeps it empty |
| Stardust.PointLifetime | src/App.jsx:45-51 | a visible point is still there after k ticks, k·8 and k·5 hundredths lower, exactly while its opacity stays positive |
| Stardust.FreshLifetime | src/App.jsx:23-51 | under ticks alone, a freshly appended point survives exactly 12 ticks, with opacity 4 and scale 40 hundredths after the 12th, and is gone after the 13th; 20 later moves within those ticks push it out sooner |
| Stardust.TickedOpacityBound | src/App.jsx:48-49 | a tick lowers the largest opacity in the trail by at least 8 hundredths |
| Stardust.TickNOpacityBound | src/App.jsx:45-51 | after k ticks every opacity is at most the old bound minus 8k |
| Stardust.TrailEmptiesAfterThirteenTicks | src/App.jsx:45-51 | 13 ticks without a mouse move empty any reachable trail |
| Stardust.AppendedValid | src/App.jsx:23-26 | appending keeps the trail invariant: at most 20 points, opacities in (0, 100], scale and opacity decayed in lockstep |
| Stardust.TickedValid | src/App.jsx:46-50 | a tick keeps the trail invariant |
| Stardust.StarCursor.constructor | src/App.jsx:11-13 | the cursor starts at (0, 0), hidden, with an empty trail |
| Stardust.StarCursor.MouseMove | src/App.jsx:18-27 | a move records the pointer, shows the cursor and appends a fresh point, keeping the invariant |
| Stardust.StarCursor.MouseLeave | src/App.jsx:29 | leaving hides the cursor and changes nothing else |
| Stardust.StarCursor.MouseEnter | src/App.jsx:30 | entering shows the cursor and changes nothing else |
| Stardust.StarCursor.FadeTick | src/App.jsx:45-51 | the interval body replaces the trail by its tick and changes nothing else |
| Stardust.Fresh | src/App.jsx:19-24 | no contract of its own: the point a move adds, at full opacity and scale; AppendedValid and FreshLifetime state its properties |
| Stardust.Decay | src/App.jsx:48 | no contract of its own: one point's decay by 8 and 5 hundredths; DecayAll and PointLifetime use it |
| Stardust.TickN | src/App.jsx:45-51 | no contract of its own: k fade ticks in a row; TickNConcat, TickNEmpty, PointLifetime, FreshLifetime, TickNOpacityBound and TrailEmptiesAfterThirteenTicks state its properties |
| Particles.HexDigitValue | src/Particles.jsx:71-73 | a hex digit, in either case, has a value below 16 |
| Particles.HexByte | src/Particles.jsx:71-73 | `parseInt` of two hex digits with radix 16 is a value in [0, 255] |
| Particles.ByteToHex | src/Particles.jsx:71-73 | the source writes no hex; this is the lower-case encoder that the decoding round trip is checked against, and both digits it writes are hex digits |
| Particles.HexDigitRoundTrip | src/Particles.jsx:71-73 | each lower-case digit reads back as its value |
| Particles.HexByteRoundTrip | src/Particles.jsx:71-73 | reading back the two digits written for a byte gives the byte |
| Particles.Component | src/Particles.jsx:71-76 | a stored colour component lies in [0, 1] and is the channel's two-digit value divided by 255 |
| Particles.Coordinate | src/Particles.jsx:62-64 | with a draw in [0, 1) and a positive spread, a coordinate lies in [-spread/2, spread/2) |
| Particles.PaletteIndex | src/Particles.jsx:70 | with a draw in [0, 1) and a non-empty palette, `floor(r * len)` is a valid palette index |
| Particles.Size | src/Particles.jsx:78 | with a draw in [0, 1), a size lies in [0.5, 1) |
| Particles.Buffer | src/Particles.jsx:55-57 | a three-wide buffer with n particles written holds 3n entries |
| Particles.Sizes | src/Particles.jsx:58 | the size buffer with n particles written holds n entries |
| Particles.BufferAt | src/Particles.jsx:60-76 | slot j holds component j % 3 of particle j / 3, so particle i owns slots 3i to 3i + 2 |
| Particles.SizesAt | src/Particles.jsx:78 | slot i of the size buffer is particle i's size |
| Particles.PositionsInCube | src/Particles.jsx:62-64 | every position coordinate the loop computes lies in [-spread/2, spread/2), before the 32-bit float narrowing |
| Particles.SeedsInUnitRange | src/Particles.jsx:66-68 | every seed the loop computes lies in [0, 1), before the 32-bit float narrowing |
| Particles.ColoursInUnitRange | src/Particles.jsx:70-76 | every colour component lies in [0, 1] and is one palette entry's channel divided by 255 |
| Particles.SizesInRange | src/Particles.jsx:78 | every size the loop computes lies in [0.5, 1), before the 32-bit float narrowing |
| Particles.FillBuffers | src/Particles.jsx:54-79 | the loop allocates buffers of length 3·count, 3·count, 3·count and count; it fails exactly when there are particles but no palette; otherwise each buffer is filled as Buffer and Sizes give |
| Particles.FillParticle | src/Particles.jsx:60-79 | one iteration extends all four filled prefixes by particle i |
| Particles.WriteTriple | src/Particles.jsx:61-76 | the three writes at i3, i3 + 1 and i3 + 2 extend a buffer's filled prefix by one particle |
| Particles.WriteSize | src/Particles.jsx:78 | the size write extends the size buffer's filled prefix by one |
| Particles.Normalize | src/Particles.jsx:42-47 | pointer normalisation is defined exactly when the container box has non-zero width and height |
| Particles.DenormalizeNormalize | src/Particles.jsx:45-46 | mapping a normalised pointer back to client coordinates gives the original point |
| Particles.NormalizeDenormalize | src/Particles.jsx:45-46 | normalising the client point of a pointer gives that pointer, so normalisation is a bijection onto the plane |
| Particles.NormalizeInside | src/Particles.jsx:45-46 | a point inside the container lands in [-1, 1] on both axes |
| Particles.NormalizeLandmarks | src/Particles.jsx:45-46 | the centre maps to (0, 0), the top edge to y = 1, the bottom edge to y = -1, the left side to x = -1 and the right side to x = 1 |
| Particles.AttributeValue | src/Particles.jsx:62-76 | no contract of its own: component k of particle i's position, seed or colour; BufferAt, PositionsInCube, SeedsInUnitRange and ColoursInUnitRange state its properties |
| Particles.Denormalize | src/Particles.jsx:45-46 | the source has no such function; it is the inverse that DenormalizeNormalize and NormalizeDenormalize check the normalisation against |
| Contact.Button | src/components/Contact/Contact.jsx:155-171 | the button is disabled exactly while submitting; it reads "Sending..." exactly while submitting, even after a success, "Message Sent!" exactly when sent and not submitting, and "Send Message" otherwise; it has the success style exactly when sent |
| Contact.DisabledIffSending | src/components/Contact/Contact.jsx:158-161 | the button is disabled exactly when it reads "Sending..." |
| Contact.LabelTextsDistinct | src/components/Contact/Contact.jsx:160-171 | the three label texts differ, so the text shown identifies the label |
| Contact.ContactForm.constructor | src/components/Contact/Contact.jsx:8-14 | the form starts with three empty fields, not submitting and not sent |
| Contact.ContactForm.HandleChange | src/components/Contact/Contact.jsx:16-18 | an edit sets exactly the named field to the new value; every other field and both flags are unchanged |
| Contact.ContactForm.BeginSubmit | src/components/Contact/Contact.jsx:20-22 | starting a submit sets `isSubmitting` and changes nothing else |
| Contact.ContactForm.CompleteSubmit | src/components/Contact/Contact.jsx:27-29 | completion clears `isSubmitting`, sets `submitted` and empties all three fields |
| Contact.ContactForm.ClearSubmitted | src/components/Contact/Contact.jsx:31 | the later timeout clears `submitted` and changes nothing else |
| Contact.LabelText | src/components/Contact/Contact.jsx:160-171 | no contract of its own: the text each label shows; LabelTextsDistinct states that the three differ |
| Contact.SubmitLifecycle | src/components/Contact/Contact.jsx:16-32 | no contract of its own: a scenario of two edits, a submit, its completion and the later clear, whose asserts give the button after each step |
| Portfolio.ByCategory | src/components/Portfolio/Portfolio.jsx:21 | the category filter keeps exactly the projects of that category, as an order-preserving subsequence, with every repeated matching project kept as often as it occurs |
| Portfolio.ByCategoryConcat | src/components/Portfolio/Portfolio.jsx:21 | filtering a concatenation filters each part, so the filter acts project by project in order |
| Portfolio.FilteredProjects | src/components/Portfolio/Portfolio.jsx:19-21 | "all" gives the project list unchanged; any other filter gives the order-preserving subsequence of exactly the matching projects, each as often as it occurs |
| Portfolio.FilteredLength | src/components/Portfolio/Portfolio.jsx:19-21 | filtering never lengthens the list |
| Portfolio.ShownTags | src/components/Portfolio/Portfolio.jsx:135 | a card shows min(3, n) tags, the first ones of its list |
| Portfolio.AtMostOneOverlay | src/components/Portfolio/Portfolio.jsx:104-110 | among cards with distinct ids, at most one has overlay opacity 1 |
| Portfolio.Gallery.constructor | src/components/Portfolio/Portfolio.jsx:9-11 | the gallery starts with filter "all", nothing hovered and no modal |
| Portfolio.Gallery.SetFilter | src/components/Portfolio/Portfolio.jsx:63 | a filter button sets the filter and changes nothing else |
| Portfolio.Gallery.HoverEnter | src/components/Portfolio/Portfolio.jsx:90 | entering a card sets `hoveredId` to its id and changes nothing else |
| Portfolio.Gallery.HoverLeave | src/components/Portfolio/Portfolio.jsx:91 | leaving a card clears `hoveredId` and changes nothing else |
| Portfolio.Gallery.Select | src/components/Portfolio/Portfolio.jsx:92 | clicking a card selects its project, which opens the modal, and changes nothing else |
| Portfolio.Gallery.CloseModal | src/components/Portfolio/Portfolio.jsx:149-153 | closing the modal clears the selection, so the modal is no longer shown, and changes nothing else |
| Portfolio.OverlayOpacity | src/components/Portfolio/Portfolio.jsx:107-109 | no contract of its own: 1 for the hovered card, else 0; AtMostOneOverlay states its property |
| Portfolio.Gallery.ModalShown | src/components/Portfolio/Portfolio.jsx:149-153 | no contract of its own: the modal is open exactly when a project is selected; the constructor, Select and CloseModal state it |
| Sequences.SubsequenceLength | src/components/Portfolio/Portfolio.jsx:21 | an order-preserving subsequence is never longer than its source |
| Sequences.SubsequenceReflexive | src/components/Portfolio/Portfolio.jsx:20 | every list is a subsequence of itself, as the "all" passthrough needs |

## Left out

- The GLSL vertex and fragment shaders (src/Particles.jsx:88-155). They are GPU code, and the drift and hover offsets they compute are not modelled.
- The renderer, camera, geometry and mesh setup, the resize handler, the `requestAnimationFrame` loop and teardown (src/Particles.jsx:22-40, 81-86, 157-193). These are calls into a rendering library and frame scheduling.
- The cloud effect's creation, `setOptions` call and `destroy` (src/App.jsx:185-204). Only the values computed for them are modelled.
- The spring smoothing of scroll progress, the parallax transform, and every animation prop (`animate`, `whileHover`, `whileInView`). These are library animation numerics.
- Event listener registration and removal, the touch-screen guard of the star cursor, and the 30 ms, 1500 ms and 5000 ms timers. Each event or timer firing is a method the caller invokes; there is no timing or concurrency to model.
- `Date.now()` and `Math.random()`. They become an `id` parameter and an input sequence of draws in [0, 1).
- Floating point. `lerpColor` computes `r1 + (r2 - r1) * t` in doubles, so `Math.round` can differ from the exact real result at a .5 boundary. Coordinates, interpolation fractions and buffer entries are reals, so IEEE double rounding and the Float32Array narrowing are not modelled. Trail opacity and scale are exact integer hundredths.
- Particles.PositionsInCube, Particles.SeedsInUnitRange, Particles.SizesInRange: the strict upper bounds hold for the computed reals. The 32-bit float entries the source stores can equal spread/2, 1 and 1, because narrowing rounds a value next to the bound up onto it.
- Particles.Normalize: for a zero-width or zero-height container the source stores ±Infinity or NaN. The model returns `None` instead. Such a container receives no pointer events.
- Particles.FillBuffers: takes `count` as a natural number. The source's `new Float32Array(count * 3)` throws a RangeError for a negative `particleCount`. A fractional count is truncated to the buffer length, and the loop's writes past the end are ignored. The model represents neither case. The site passes 800, and the default is 200.
- Particles.FillBuffers: requires every palette entry to be `#` followed by six hex digits. The NaN and partial-prefix results of `parseInt` on other strings are not modelled, because every palette in the site has that form.
- Particles.FillBuffers: on the empty-palette failure it says nothing about the buffers' contents. The source writes part of particle 0 before it throws, and the model does not track that.
- The pointer listener is installed only when hover is enabled, and the pointer is copied into the shader every frame. Neither is modelled; only the normalisation itself is.
- Contact: `preventDefault`, the awaited promise and the form markup. An input event is reduced to the input's name and value.
- Contact.ContactForm.BeginSubmit: can be called from any state. In the page, the three inputs are `required` and the email input has type email, so the browser submits only non-empty fields with a well-formed address. The model over-approximates this: it allows more submits than the page does.
- The star cursor's rendering of the trail, and the project modal's contents (src/components/Portfolio/ProjectModal.jsx is not part of this model).
- The site's static project list (src/data/projects.js is not part of this model). The filter is modelled for any list of projects.
- App.jsx's own project modal state (src/App.jsx:177, 676-700) is not part of this model. The gallery component's state is.
