# Portfolio website: particle pass, scroll-spy and mail relay in Dafny

This project models the parts of the portfolio site that have logic worth stating precisely.

- **Particle cloud (`script.js`).**
  - The home scene scatters 200 points in a 150-unit cube.
  - On every frame, `connectParticles` walks the flat position buffer with stride 3 and visits every pair of points `i < j` in order.
  - It pushes both points' coordinates onto the line-segment vertex list whenever they are closer than 15 units.
  - `particles.dfy` models both loops imperatively. `ConnectedVertices` is the outer loop. `ConnectPoint` is the inner loop. `ConnectPair` is one inner turn. The class `HomeScene` holds the position buffer (an `array`) and the line vertices.
  - The loops are proved equal to a specification over point indices, `Connections`. Properties of that specification are proved as lemmas: exact membership, order, length, and where each coordinate triple comes from.
- **Scroll handler (`script.js`).**
  - `navigation.dfy` models the `scroll` listener as a method of the class `Header`.
  - The listener does three things:
    - Each section whose interval `[offsetTop - 150, offsetTop - 150 + height)` contains the scroll position clears every navigation link and marks its own.
    - If that section's id breaks the link selector, `querySelector` throws. The listener then ends with every link cleared, and the header and menu are left as they were.
    - The header is sticky exactly when the scroll position exceeds 100.
    - The mobile menu closes.
  - When every id in view is safe, the result of the section loop is characterised by `LastInView`, the last section in view.
- **Mail relay (`backend/server.js`).** `relay.dfy` covers three things:
  - the start-up guard on `EMAIL_USER`, `EMAIL_PASS` and `RECIPIENT_EMAIL`, and the `PORT` default of 3001;
  - the exact `from`, `to`, `subject` and HTML strings of the outgoing mail;
  - the HTTP reply chosen from the outcome of `sendMail`.

  Layout lemmas show where each submitted field sits in the composed strings, whatever characters it contains. A parser sits beside each composed string, with a round-trip lemma:
  - the subject is always read back;
  - the `from` header gives back a name without a double quote, and any address;
  - the HTML body gives back fields that contain no `<`.

`wrappers.dfy` holds the shared `Option` type. `sequences.dfy` holds `IndexOf`, which finds the first occurrence of a value. The scroll handler uses `IndexOf` for `querySelector`, and the relay's parsers use it too.

Modelling choices:

- Coordinates are `real`, and the test `sqrt(d2) < 15` is written `d2 < 15 * 15`. `SquaredThreshold` shows the two tests are the same.
- The buffer may have a length that is not a multiple of 3. A point whose triple is cut off reads `undefined` coordinates in JavaScript. Its distance is then NaN, the comparison is false, and the point is never connected. `Near` requires the later point's triple to be whole.
- A request-body field that is missing renders as the text `undefined`, which is how a template literal renders it.
- The outcome of sending the mail is an input value, `SendOutcome`.
- The random draws of the initial scatter are an input sequence of values in `[0, 1)`.

## Model

| member | source | states |
|---|---|---|
| Particles.Scatter | script.js:62-64 | a coordinate drawn from `r` in [0, 1) lies in [-75, 75) |
| Particles.HomeScene.constructor | script.js:46 | before `initHomeScene` runs, there is no particle buffer and no line geometry |
| Particles.HomeScene.Init | script.js:50-64 | without a canvas nothing changes; otherwise a fresh buffer of 600 coordinates is filled, entry k from draw k, every entry in [-75, 75), and the line vertices start empty |
| Particles.HomeScene.ConnectParticles | script.js:156-174 | a no-op when there are no particles; otherwise only the line vertices change, and they become `Connections` of the buffer's contents |
| Particles.ConnectedVertices | script.js:160-172 | the outer loop over offsets 0, 3, 6, … returns exactly `Connections(positions)` |
| Particles.ConnectPoint | script.js:162-171 | the inner loop for the point at offset i pushes exactly the vertices of the pairs (a, b), for every later b, that the pass connects, in order |
| Particles.ConnectPair | script.js:163-170 | one inner turn appends point a's triple and then point b's triple exactly when both are whole and their squared distance is below 225; otherwise it appends nothing |
| Particles.SquaredThreshold | script.js:166-167 | for a non-negative distance d, `d < 15` iff `d * d < 225` |
| Particles.LastTurn | script.js:161-162 | a loop stepping by 3 from 0 over n coordinates stops after `PointCount(n)` turns |
| Particles.WholeVisited | script.js:161-162 | every whole triple's point index is below the loop's turn count |
| Particles.PairSegment | script.js:167-169 | one turn pushes the segment of its pair when connected, nothing otherwise |
| Particles.PointVerticesSegments | script.js:162-170 | the inner loop's pushes are the segments of the edges it finds, in order |
| Particles.VerticesBeforeSegments | script.js:161-172 | the outer loop's pushes are the segments of the edges it finds, in order |
| Particles.ConnectionsAreSegments | script.js:161-169 | the vertex list is the concatenation, in discovery order, of one six-coordinate segment per connected pair |
| Particles.SegmentsLength | script.js:168-169 | each edge contributes exactly six coordinates |
| Particles.ConnectionsLength | script.js:168-169 | the vertex list's length is 6 times the number of connected pairs, so it is a multiple of 6 |
| Particles.SegmentsAt | script.js:168-169 | coordinates 6k..6k+2 are the first point's triple of edge k, and 6k+3..6k+5 are its second point's triple |
| Particles.PointEdgesExact | script.js:162-167 | the inner loop for a finds (a, b) iff b is before its bound and the pair is near |
| Particles.EdgesBeforeExact | script.js:161-167 | the outer loop up to a finds (p, q) iff p < a, q is visited and the pair is near |
| Particles.NearEdgesExact | script.js:159-167 | `Near`: (a, b) is connected iff a < b, b's triple is whole and the squared distance is strictly below 225; hence no self-pairs, and a pair at distance exactly 15 is excluded |
| Particles.PointEdgesSorted | script.js:162 | the inner loop finds its pairs in increasing order of b |
| Particles.EdgesBeforeSorted | script.js:161-162 | the outer loop finds its pairs in lexicographic order of (a, b) |
| Particles.NearEdgesOrdered | script.js:161-169 | connected pairs come out in strict lexicographic order of (a, b), so no pair appears twice |
| Particles.EmittedTriples | script.js:168-169 | every group of six output coordinates is two input triples at offsets that are multiples of 3, the earlier point first |
| Particles.FewPointsNoSegments | script.js:161-162 | a buffer of fewer than two points (fewer than 6 coordinates) yields no pairs and an empty vertex list |
| Particles.ThreePointExample | script.js:156-174 | for points (0,0,0), (1,0,0) and (100,0,0) only the first pair is connected, giving the vertices 0,0,0,1,0,0 |
| Navigation.Href | script.js:18-22 | the selector's `href` is `#` followed by the section id, and exactly `#null` when the id attribute is missing |
| Sequences.IndexOf | script.js:22 | the first link with that `href`, or none iff no link has it |
| Navigation.QuerySelector | script.js:22 | the lookup throws iff the id holds a double quote, a backslash or a line break; otherwise it finds the first link whose `href` is `Href(id)` |
| Navigation.Mark | script.js:21-25 | after clearing, exactly the found link (if any) is active |
| Navigation.LastInView | script.js:15-20 | the last section whose interval `InView` contains the scroll position, or none iff no section's does |
| Navigation.Header.constructor | script.js:2-5 | the header holds the page's links, and its `active`, `sticky` and menu classes are whatever the markup gives it |
| Navigation.Header.ClearLinks | script.js:21 | every link loses its `active` flag, and nothing else in the header changes |
| Navigation.Header.OnScroll | script.js:12-33 | the flags become those of `Spied` over the sections in order. If no lookup threw, `sticky` holds iff the scroll position is above 100 and the menu is closed. If one threw, `sticky` and the menu are unchanged |
| Navigation.ThrownPersists | script.js:15-27 | once a lookup has thrown, the remaining sections (each a `Visit` turn) change nothing |
| Navigation.SpiedThrows | script.js:15-27 | the section loop `Spied` throws iff some section in view has an unsafe id, and then every link is cleared |
| Navigation.SpiedIsLast | script.js:15-27 | with every id in view safe, `Spied` never throws. The flags are unchanged when no section is `InView`; otherwise exactly the first link naming the last section in view is active |
| Navigation.ActiveLinkExact | script.js:20-25 | with a section in view and every id in view safe, link k is active iff it is the first link whose `href` names the last section in view |
| Navigation.NothingInViewKeepsActive | script.js:20 | with no section in view, the previous highlight stays and nothing throws |
| Navigation.AtMostOneActive | script.js:21-25 | after a scroll at most one link is active, given at most one was before, whether or not a lookup threw |
| Navigation.TiledOrdered | script.js:16-17 | in a layout of consecutive sections, every section starts at or after the end of every earlier one |
| Navigation.TiledAtMostOneInView | script.js:16-20 | in such a layout, `InView` holds for at most one section at any scroll position |
| Navigation.TiledHighlightsSectionInView | script.js:15-27 | in such a layout, the section in view with a safe id is the one whose link is highlighted |
| Navigation.ScrollExample | script.js:15-29 | at scroll 500 over sections spanning 0..400 and 400..1000, the second link is active. `Sticky` is false at 100 and true at 101 |
| Navigation.QuoteInIdExample | script.js:20-22 | a section in view whose id contains a double quote makes the lookup throw, leaving both links cleared |
| Relay.ResolvePort | backend/server.js:31 | the port is the `PORT` value when it is present and non-empty, otherwise 3001 |
| Relay.EmptyPortDefaults | backend/server.js:31 | an empty `PORT` falls back to 3001 |
| Relay.StartRefusesIncomplete | backend/server.js:20-24 | `Start`: the server exits with status 1 iff one of the three required variables is missing or empty |
| Relay.StartCarriesEnv | backend/server.js:11-31 | `Start`: a started server holds exactly the configured, non-empty user, password and recipient, and the resolved port |
| Relay.StartDependsOnlyOnKeys | backend/server.js:11-31 | start-up depends only on the four variables it reads |
| Relay.Text | backend/server.js:39-61 | a present field is interpolated verbatim |
| Relay.FromField | backend/server.js:50 | the `from` header is five characters longer than the two fields, and starts with a quote and ends with `>` |
| Relay.FromLayout | backend/server.js:50 | in the `from` header the name sits verbatim after the opening quote, followed by `" <`, and the address sits verbatim before the closing `>`, whatever characters they contain |
| Relay.FromRoundTrip | backend/server.js:50 | a name without a double quote and any address are read back unchanged from the `from` header |
| Relay.FromUnescapedCollision | backend/server.js:50 | the name is not escaped: two different submissions can give the same `from` header |
| Relay.SubjectLine | backend/server.js:52 | the subject is `New Contact Form Submission: ` followed by the submitted subject |
| Relay.SubjectRoundTrip | backend/server.js:52 | stripping the prefix gives back the submitted subject |
| Relay.SubjectInjective | backend/server.js:52 | different subjects give different subject lines |
| Relay.HtmlBody | backend/server.js:53-61 | the HTML body starts with the fixed heading and name label, and its length is the template's plus the four fields' |
| Relay.HtmlLayout | backend/server.js:53-61 | in the HTML body, name, email, mobile and message each sit verbatim at their offset, each followed by its fixed template piece and the message by the closing text, whatever characters they contain |
| Relay.HtmlRoundTrip | backend/server.js:53-61 | fields free of `<` are read back from the HTML body verbatim and in the order name, email, mobile, message |
| Relay.RecipientIgnoresBody | backend/server.js:49-51 | `ComposeMail`: the `to` field is the configured recipient, whatever the request body |
| Relay.MissingFieldsExample | backend/server.js:39-52 | `ComposeMail`: an empty body yields the header `"undefined" <undefined>` and the subject `… Submission: undefined` |
| Relay.TransportFor | backend/server.js:41-47 | the transport is Gmail, authenticated with the configured user and password |
| Relay.Respond | backend/server.js:64-71 | an error gives 500 with success false and the failure message; success gives 200 with success true and the success message |
| Relay.OneReplyPerOutcome | backend/server.js:38-71 | `HandleSubmission`: each request gets exactly one reply, fixed by the outcome alone |
| Relay.MailIgnoresOutcome | backend/server.js:38-64 | `HandleSubmission`: the transport and mail do not depend on the send outcome |

## Left out

- Three.js scene, camera, renderer, materials, `setAttribute` on GPU buffers and `renderer.render`: these are foreign library calls. `ConnectParticles` stores its vertex list in a field instead.
- Float32 storage and rounding: coordinates are exact reals, so values that differ only by rounding are not modelled.
- `Math.random` itself: its values are a `draws` parameter.
- The rotation drift, the mouse lerp and the mouse coordinate normalisation: these are floating-point animation only.
- `requestAnimationFrame`, the resize listener, the menu-icon click toggle and the navigation-link click that closes the menu on narrow screens: these are event plumbing.
- The pass reads the position buffer as a sequence snapshot (`particles[..]`). That the buffer is not written is stated by the `modifies` clause of `ConnectParticles`, not by aliasing within the loops.
- `ConnectPoint` returns what the inner loop pushes, and the outer loop appends it. The source pushes onto one array directly, and the order is the same.
- Navigation.QuerySelector: an id holding a double quote, a backslash or a line break is taken to make the selector invalid, so the lookup throws. A browser decodes a backslash as a CSS escape instead (`x\31` selects `#x1`). Some ids with quotes close the attribute value early yet still form a valid selector, which then matches by CSS rules rather than throwing. Ids free of those characters are modelled exactly.
- Navigation.Header.OnScroll: the throw is modelled as the listener ending. Where the browser reports the uncaught error is not modelled. Inherits the `Navigation.QuerySelector` approximation above.
- Particles.HomeScene.Init: the bound [-75, 75) holds for exact reals. The source stores each coordinate in a Float32Array, where rounding can turn a value just below 75 into exactly 75, so the source's bound is [-75, 75].
- `scrollY` is taken as a whole number of pixels. Browsers may report fractions.
- The `active` class and the `fa-xmark` icon class are one flag, `menuOpen`, because the page always sets and clears them together.
- The contact form's `fetch`, response parsing and toast timers: these are network I/O and timers.
- Express, CORS, JSON body parsing, `app.listen`, the nodemailer transport and console logging: these are I/O and foreign services. The transport's outcome is the `SendOutcome` input.
- The `try`/`catch` exit on a start-up exception: that exception can only come from the foreign libraries.
- Request-body fields that are JSON numbers, objects or `null`: only strings and missing fields are modelled.
