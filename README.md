# InstaShare Motion 3D: a verified model of its core logic

This project models, in Dafny, the self-contained logic inside the photo-sharing
web application:

- **Hand tracking** (`useHandTracking.js`). Finger counting, the Victory pose
  test and the frame-edge warning over 21 landmarks. A swipe detector keeps a
  bounded history of `(x, time)` samples, a cooldown and a dual
  displacement/speed trigger. A per-frame step handles the no-hand grace
  period, the gesture (with the Victory override) and the mirrored hand
  position.
- **Galaxy mode** (`GalaxyMode.jsx`). The browsing state machine over
  `selectedPhotoIndex`, `isPhotoViewMode`, `showWelcome` and
  `cameraPermissionGranted`. It is driven by gesture changes, swipe pulses,
  keys, photo clicks, start, close, the viewer's buttons and the 500 ms exit
  timer. React's effect scheduling is modelled as rounds of renders: an effect
  runs when one of its dependencies differs from the previous render.
  The component object `GalaxyScreen` carries a fixed `variant`: `AsWritten`
  runs the Victory effect as the source has it, `Corrected` the one proposed
  under Findings, which also requires the mode to be open.
- **Galaxy scene** (`GalaxyScene.jsx`). The targets chosen from the gesture
  (camera zoom, card scale and opacities, card position, lighting) and the
  per-frame easing (`lerp`) of the camera, the particles and each photo card.
- **The post store** (`post.reducer.js`). Every action of the reducer.
- **The local post service** (`post.service.local.js`). It works over an
  abstract store from post id to post. It covers:
  - post likes and comment likes;
  - adding and deleting comments;
  - the record `save` writes;
  - the likes filter, likes sort and projection of `query`.
- **The event bus** (`event-bus.service.js`). Subscribe, unsubscribe, emit,
  and the message helpers.
- **Search** (`Search.jsx`). The case-insensitive user filter, the term
  effect, and the most-recently-used list of visited users.
- **Post details** (`PostDetailsContent.jsx`). Bounded prev/next, the initial
  like flag, the like toggle, and the optimistic comment add, delete and like
  updates.
- **Create post** (`CreatePost.jsx`). The upload → preview → caption wizard,
  the discard dialog and the share guards.
- **Upload** (`upload.service.js`). The aspect-preserving resize rule, the
  compression threshold and the choice of URL from the host's reply.

Where the source mutates state, the model is a class. Each method's `ensures`
ties the new state to a specification function of the old state, and the
properties are proved as lemmas about those functions. Pure code is modelled
as functions and lemmas.

JavaScript semantics are written out where they matter:

- the truncating remainder (`Js.Rem`);
- `trim`;
- falsy tests;
- a comparator that yields `NaN` for a missing `likesCount`, which acts as 0;
- a stable `sort`;
- a read of a missing array (a TypeError), modelled as the `MissingList` error.

Clocks are `now` parameters in milliseconds. Timers are explicit deadlines
fired by `Tick(now)`. Numbers are `real` (coordinates, sizes) or `int`
(timestamps, counts, indices).

Files:

- `wrappers.dfy`: Option and Result.
- `js.dfy`: JavaScript built-ins.
- `entities.dfy`: users, posts, comments, files.
- `hand_features.dfy`
- `hand_tracking.dfy`
- `galaxy_mode.dfy`
- `galaxy_scene.dfy`
- `post_reducer.dfy`
- `post_service.dfy`
- `event_bus.dfy`
- `search.dfy`
- `post_details.dfy`
- `create_post.dfy`
- `upload.dfy`

## Model

| member | source | states |
|---|---|---|
| Js.Rem | src/cmps/GalaxyMode/GalaxyMode.jsx:46-52 | JavaScript `%` for a positive divisor: the remainder has the dividend's sign and magnitude below the divisor, and dividend = q·n + remainder |
| Js.RemSmall | src/cmps/GalaxyMode/GalaxyMode.jsx:46-52 | for 0 ≤ a < 2n the remainder is a, or a − n once a reaches n (the wrap the index arithmetic relies on) |
| Js.TrimStart | src/cmps/Search.jsx:22 | exactly the leading white space is removed: the result is a suffix of the input, everything before it is white space, and it does not start with white space |
| Js.TrimEnd | src/cmps/Search.jsx:22 | exactly the trailing white space is removed: the result is a prefix of the input, everything after it is white space, and it does not end with white space |
| Js.TrimStartEmpty | src/cmps/Search.jsx:22 | trimming the start gives "" exactly when every character is white space |
| Js.TrimEndEmpty | src/cmps/Search.jsx:22 | trimming the end gives "" exactly when every character is white space |
| Js.TrimEmptyIffAllSpace | src/cmps/Search.jsx:22 | `s.trim()` is empty (falsy) exactly when s consists of white space only |
| Js.ToLower | src/cmps/Search.jsx:33-36 | lower-casing keeps the length and maps each character through the ASCII lower-case map |
| Js.Includes | src/cmps/Search.jsx:33-36 | `includes` holds exactly when the needle occurs at some position of the haystack |
| HandFeatures.CardOnly | src/cmps/GalaxyMode/useHandTracking.js:36-51 | adding one finger that is not yet counted raises the count by exactly its indicator |
| HandFeatures.ExtendedFingersAsUnion | src/cmps/GalaxyMode/useHandTracking.js:36-51 | the extended set is the union of one singleton per finger whose test holds |
| HandFeatures.CountFingersIsExtendedCount | src/cmps/GalaxyMode/useHandTracking.js:31-54 | `countFingers` is the number of extended fingers, at most 5, and 0 for fewer than 21 landmarks |
| HandFeatures.ExtendedFingersMembers | src/cmps/GalaxyMode/useHandTracking.js:36-51 | a finger counts exactly when its own test holds: the thumb when the spread between landmarks 4 and 2 exceeds 0.05, any other finger when its tip is above its joint (8/6, 12/10, 16/14, 20/18) |
| HandFeatures.VictoryIsTwoFingers | src/cmps/GalaxyMode/useHandTracking.js:57-69 | `isVictorySign` holds exactly when the index and middle fingers are up and the ring finger and pinky strictly down, which needs 21 landmarks; the hand then counts two or three fingers |
| HandFeatures.LevelRingFingerIsNotVictory | src/cmps/GalaxyMode/useHandTracking.js:57-69 | a ring-finger tip level with its joint is neither up nor down, so the pose is not Victory |
| HandFeatures.CheckHandEdgeFirstMatch | src/cmps/GalaxyMode/useHandTracking.js:72-86 | the reported edge is the first one, in the order right (x < 0.12), left (x > 0.88), top, bottom, whose margin holds the wrist; none exactly when no margin does or the frame is short |
| HandTracking.Window | src/cmps/GalaxyMode/useHandTracking.js:101-107 | the new sample is last, the window is a suffix of history + sample, nothing is dropped below 10 samples, and it never grows past 10 |
| HandTracking.SwipeStep | src/cmps/GalaxyMode/useHandTracking.js:89-139 | a non-Victory input empties the history and fires nothing; the cooldown keeps the history and fires nothing; fewer than 3 samples never fire; firing clears the history; otherwise the history is the new window |
| HandTracking.SwipeStepDisplacement | src/cmps/GalaxyMode/useHandTracking.js:113-136 | a swipe fires only with Victory, no cooldown, at least 3 samples and a displacement above 0.05, and points right exactly when the newest x is greater than the oldest; under those conditions a displacement above 0.08 always fires |
| HandTracking.FeedIncreasing | src/cmps/GalaxyMode/useHandTracking.js:101-111 | samples moving right fed to a fresh detector: until something fires the history is exactly the samples fed so far, and the only thing that can fire is one right swipe, which turns the cooldown on |
| HandTracking.FeedFromFresh | src/cmps/GalaxyMode/useHandTracking.js:113-136 | one more rightward sample on such a history either fires nothing and extends the history, or fires right; it fires right once there are 3 samples and the displacement exceeds 0.08 |
| HandTracking.IncreasingMotionSwipesRightOnce | src/cmps/GalaxyMode/useHandTracking.js:89-139 | 3 to 10 Victory samples moving right by more than 0.08 fire exactly one right swipe and leave the cooldown on |
| HandTracking.FreshHoldNeedsThreeSamples | src/cmps/GalaxyMode/useHandTracking.js:89-111 | after a non-Victory frame the next two Victory frames fire nothing, whatever the cooldown was |
| HandTracking.StepsPreserveValid | src/cmps/GalaxyMode/useHandTracking.js:101-107 | every frame and every timer check keeps the history within 10 samples |
| HandTracking.HandResetsCounter | src/cmps/GalaxyMode/useHandTracking.js:305-332 | a frame with a hand resets the no-hand counter to 0 and sets the in-frame flag and the edge warning of the first hand |
| HandTracking.HandGesture | src/cmps/GalaxyMode/useHandTracking.js:349-390 | for a readable hand the position is the mirrored wrist and the finger count is `countFingers`; with no gesture list the gesture is cleared and the history kept; a Victory pose sets Victory whatever the classifier says; otherwise the history is cleared and the top category is adopted exactly when its score exceeds 0.5, the gesture being cleared otherwise |
| HandTracking.GracePeriod | src/cmps/GalaxyMode/useHandTracking.js:383-390 | after k frames without a hand the counter is k, the hand stays in frame exactly while k ≤ 10, and the gesture is cleared on every such frame |
| HandTracking.NoSwipeDuringCooldown | src/cmps/GalaxyMode/useHandTracking.js:96-133 | no frame or timer event before the cooldown's 300 ms deadline fires a swipe, and the cooldown stays on with the same deadline |
| HandTracking.CooldownIgnoresSamples | src/cmps/GalaxyMode/useHandTracking.js:96-98 | while the cooldown is on, a Victory sample changes neither the history, the cooldown nor the swipes fired |
| HandTracking.HandTracker.constructor | src/cmps/GalaxyMode/useHandTracking.js:5-25 | the hook's initial state: no gesture, hand centred, counter 0, empty history, no cooldown |
| HandTracking.HandTracker.DetectSwipe | src/cmps/GalaxyMode/useHandTracking.js:89-139 | updates the history and cooldown in place, as `SwipeStep` specifies, and returns its swipe |
| HandTracking.HandTracker.PushSample | src/cmps/GalaxyMode/useHandTracking.js:101-107 | the history becomes `Window(history, sample)` and nothing else changes |
| HandTracking.HandTracker.JudgeHistory | src/cmps/GalaxyMode/useHandTracking.js:113-136 | fires exactly on the dual trigger over oldest and newest sample; firing clears the history and arms the cooldown |
| HandTracking.HandTracker.ProcessFrame | src/cmps/GalaxyMode/useHandTracking.js:305-391 | one processed frame changes the state as `FrameStep` specifies; a recognition that threw changes nothing |
| HandTracking.HandTracker.HandFrame | src/cmps/GalaxyMode/useHandTracking.js:305-380 | the branch for a detected hand, as `HandStep` specifies |
| HandTracking.HandTracker.GestureFrame | src/cmps/GalaxyMode/useHandTracking.js:345-380 | the gesture part of a hand frame, as `GestureStep` specifies |
| HandTracking.HandTracker.Tick | src/cmps/GalaxyMode/useHandTracking.js:131-133 | the due timers fire: the cooldown ends and the swipe pulse clears (also lines 363) |
| GalaxyMode.Photos | src/cmps/GalaxyMode/GalaxyMode.jsx:23 | the photos are posts with a non-empty image URL, no more than the posts |
| GalaxyMode.PhotosAppend | src/cmps/GalaxyMode/GalaxyMode.jsx:23 | the filter distributes over concatenation, so the photos keep the posts' order |
| GalaxyMode.PhotosMembers | src/cmps/GalaxyMode/GalaxyMode.jsx:23 | a post is a photo exactly when it is a post with an image URL |
| GalaxyMode.FindIndex | src/cmps/GalaxyMode/GalaxyMode.jsx:211 | `findIndex`: −1 exactly when no photo has the id, otherwise the position of the first photo with it |
| GalaxyMode.WrapInRange | src/cmps/GalaxyMode/GalaxyMode.jsx:43-55 | with n > 0 photos, moving right (null ↦ 0) or left (null ↦ n − 1) from any index in range lands in [0, n − 1] |
| GalaxyMode.NextPrevInverse | src/cmps/GalaxyMode/GalaxyMode.jsx:43-55 | left undoes right and right undoes left; left from 0 wraps to n − 1 and right from n − 1 wraps to 0 |
| GalaxyMode.Round | src/cmps/GalaxyMode/GalaxyMode.jsx:26-94 | a render's effects never change the props: open, posts, gesture and swipe pulse |
| GalaxyMode.RoundDecreases | src/cmps/GalaxyMode/GalaxyMode.jsx:26-94 | a render that changes state leaves strictly less re-rendering to do, so re-rendering settles |
| GalaxyMode.Settle | src/cmps/GalaxyMode/GalaxyMode.jsx:26-94 | re-rendering until nothing changes keeps the props |
| GalaxyMode.SettleStep | src/cmps/GalaxyMode/GalaxyMode.jsx:26-94 | settling is one render followed by settling from it, unless the render changed nothing |
| GalaxyMode.IdleRound | src/cmps/GalaxyMode/GalaxyMode.jsx:26-94 | a render after nothing changed runs no effect and keeps the pending timer |
| GalaxyMode.NoPhotosNoEntry | src/cmps/GalaxyMode/GalaxyMode.jsx:26-31 | the effects never enter photo view while there are no photos |
| GalaxyMode.SettleKeepsIndexInRange | src/cmps/GalaxyMode/GalaxyMode.jsx:26-55 | the effects keep the selected index absent or within the photo list |
| GalaxyMode.RoundKeepsIndexInRange | src/cmps/GalaxyMode/GalaxyMode.jsx:26-55 | each effect of one render keeps the selected index absent or within the photo list: entering photo view selects 0 only with photos, a swipe moves within the list, closing clears it (also lines 86-94) |
| GalaxyMode.CommitKeepsIndexInRange | src/cmps/GalaxyMode/GalaxyMode.jsx:26-55 | re-rendering after an event keeps the selected index in range |
| GalaxyMode.HandlerKeepsIndexInRange | src/cmps/GalaxyMode/GalaxyMode.jsx:58-84 | from an index in range, the key handler, a click on one of the photos, the nav buttons and new posts that do not shrink the photo list keep it in range (also lines 210-214, 330-353) |
| GalaxyMode.KeyKeepsIndexInRange | src/cmps/GalaxyMode/GalaxyMode.jsx:58-84 | the arrow keys move a selection in range to one in range, and Escape leaves it alone |
| GalaxyMode.MovesKeepIndexInRange | src/cmps/GalaxyMode/GalaxyMode.jsx:330-353 | with photos, prev and next from an index in range land in range |
| GalaxyMode.ClickKeepsIndexInRange | src/cmps/GalaxyMode/GalaxyMode.jsx:210-214 | clicking one of the photos selects a position within the photo list |
| GalaxyMode.IndexStaysInRange | src/cmps/GalaxyMode/GalaxyMode.jsx:26-99 | every event keeps the selected index in range, given that new posts do not shrink the photo list and a clicked photo is one of the photos (also lines 210-214, 320-353) |
| GalaxyMode.PropsKeepIndexInRange | src/cmps/GalaxyMode/GalaxyMode.jsx:26-94 | a new gesture, swipe pulse, open flag, or posts whose photo list does not shrink keeps the index in range through the re-render |
| GalaxyMode.InputKeepsIndexInRange | src/cmps/GalaxyMode/GalaxyMode.jsx:58-84 | a key, a click on one of the photos or the start button keeps the index in range through the re-render (also lines 96-99, 210-214) |
| GalaxyMode.ViewerKeepsIndexInRange | src/cmps/GalaxyMode/GalaxyMode.jsx:320-353 | the viewer buttons and the exit timer keep the index in range through the re-render (also lines 32-36) |
| GalaxyMode.NoPhotosNoPhotoView | src/cmps/GalaxyMode/GalaxyMode.jsx:26-40 | with no photos no gesture change turns photo view on |
| GalaxyMode.VictoryEntersPhotoView | src/cmps/GalaxyMode/GalaxyMode.jsx:26-31 | showing Victory with photos enters photo view; the index becomes 0 only if none was selected; no exit is pending |
| GalaxyMode.LeavingVictoryArmsExit | src/cmps/GalaxyMode/GalaxyMode.jsx:32-40 | dropping Victory in photo view arms the exit for now + 500 and changes nothing else |
| GalaxyMode.ExitTimer | src/cmps/GalaxyMode/GalaxyMode.jsx:33-37 | while Victory is not shown, the exit timer does nothing before its deadline and, once due, leaves photo view and clears the deadline |
| GalaxyMode.ReturningToVictoryCancelsExit | src/cmps/GalaxyMode/GalaxyMode.jsx:26-40 | returning to Victory before the deadline cancels the exit, so photo view stays on at and after the old deadline |
| GalaxyMode.ArrowKeyRearmsExit | src/cmps/GalaxyMode/GalaxyMode.jsx:38-77 | an index change while the exit is pending cancels it and arms a new one for now + 500 |
| GalaxyMode.SwipeNavigates | src/cmps/GalaxyMode/GalaxyMode.jsx:43-55 | a swipe pulse in photo view with photos moves the index one step right or left with wrap-around; otherwise it changes nothing |
| GalaxyMode.EscapeKey | src/cmps/GalaxyMode/GalaxyMode.jsx:60-66 | in photo view Escape only leaves photo view (Victory held re-enters it); past the welcome screen it asks to close; on the welcome screen it does nothing |
| GalaxyMode.ArrowKeys | src/cmps/GalaxyMode/GalaxyMode.jsx:67-77 | the arrow keys apply the swipe arithmetic under the same guard and never ask to close |
| GalaxyMode.CloseResets | src/cmps/GalaxyMode/GalaxyMode.jsx:87-94 | closing clears the selection and photo view, shows the welcome screen, drops the camera permission, disables tracking and cancels an exit pending in photo view (corrected Victory effect) |
| GalaxyMode.CloseWhileVictoryReentersPhotoView | src/cmps/GalaxyMode/GalaxyMode.jsx:26-31 | as written, closing while Victory is shown with photos ends in photo view with index 0 (also lines 87-94) |
| GalaxyMode.StartEnablesTracking | src/cmps/GalaxyMode/GalaxyMode.jsx:96-99 | start hides the welcome screen and grants the camera, so tracking runs exactly when the mode is open (also line 20) |
| GalaxyMode.PhotoClickSelects | src/cmps/GalaxyMode/GalaxyMode.jsx:210-214 | a photo click selects the position of the photo's id and turns photo view on whatever the gesture; without Victory it arms the exit for now + 500 at once |
| GalaxyMode.ViewerButtons | src/cmps/GalaxyMode/GalaxyMode.jsx:320-353 | previous and next move one step with wrap-around, as the arrow keys do; close leaves photo view and clears the exit while Victory is not shown |
| GalaxyMode.GalaxyScreen.constructor | src/cmps/GalaxyMode/GalaxyMode.jsx:14-22 | the first render of the component, settled, under the chosen Victory variant (`AsWritten` is the source's effect, `Corrected` also requires the mode to be open); the object keeps that variant |
| GalaxyMode.GalaxyScreen.RunEffects | src/cmps/GalaxyMode/GalaxyMode.jsx:26-94 | one render's effects in declaration order, as `Round` specifies for the object's variant |
| GalaxyMode.GalaxyScreen.RunVictoryEffect | src/cmps/GalaxyMode/GalaxyMode.jsx:26-40 | the Victory effect on the fields, as `VictoryEffect` specifies for the object's variant: enter photo view (under `AsWritten`, as the source does, whether or not the mode is open) or arm the exit timer |
| GalaxyMode.GalaxyScreen.RunSwipeEffect | src/cmps/GalaxyMode/GalaxyMode.jsx:42-55 | the swipe effect moves the latest selection, as `SwipeEffect` specifies, and leaves the timer alone |
| GalaxyMode.GalaxyScreen.RunOpenEffect | src/cmps/GalaxyMode/GalaxyMode.jsx:86-94 | closing resets the selection, photo view, welcome screen and camera permission, as `OpenEffect` specifies |
| GalaxyMode.GalaxyScreen.Rerender | src/cmps/GalaxyMode/GalaxyMode.jsx:26-94 | renders while something changes, as `Settle` specifies for the object's variant |
| GalaxyMode.GalaxyScreen.SetGesture | src/cmps/GalaxyMode/GalaxyMode.jsx:26-40 | a new gesture prop, then re-rendering |
| GalaxyMode.GalaxyScreen.SetSwipeDirection | src/cmps/GalaxyMode/GalaxyMode.jsx:43-55 | a new swipe pulse, then re-rendering |
| GalaxyMode.GalaxyScreen.SetPosts | src/cmps/GalaxyMode/GalaxyMode.jsx:23 | new posts, then re-rendering under the object's variant |
| GalaxyMode.GalaxyScreen.SetOpen | src/cmps/GalaxyMode/GalaxyMode.jsx:87-94 | opening or closing, then re-rendering under the object's variant (under `AsWritten` a close while Victory is held re-enters photo view, as in the source) |
| GalaxyMode.GalaxyScreen.HandleKeyDown | src/cmps/GalaxyMode/GalaxyMode.jsx:58-84 | the key handler's update and whether it called `onClose` |
| GalaxyMode.GalaxyScreen.SelectPhoto | src/cmps/GalaxyMode/GalaxyMode.jsx:210-214 | the photo click handler |
| GalaxyMode.GalaxyScreen.StartExperience | src/cmps/GalaxyMode/GalaxyMode.jsx:96-99 | `handleStartExperience` |
| GalaxyMode.GalaxyScreen.CloseViewer | src/cmps/GalaxyMode/GalaxyMode.jsx:320 | the viewer's close button |
| GalaxyMode.GalaxyScreen.PreviousPhoto | src/cmps/GalaxyMode/GalaxyMode.jsx:330-332 | the previous button's wrap-around update |
| GalaxyMode.GalaxyScreen.NextPhoto | src/cmps/GalaxyMode/GalaxyMode.jsx:351-353 | the next button's wrap-around update |
| GalaxyMode.GalaxyScreen.Tick | src/cmps/GalaxyMode/GalaxyMode.jsx:33-37 | the exit timer's callback once due |
| GalaxyScene.OpenPalmZoomRange | src/cmps/GalaxyMode/GalaxyScene.jsx:321-326 | for y in [0, 1] the open-palm zoom lies in [30, 80] and does not increase with y |
| GalaxyScene.TargetZoomRange | src/cmps/GalaxyMode/GalaxyScene.jsx:316-329 | every target zoom lies in [25, 80]: 25 for a fist, 45 for other gestures |
| GalaxyScene.LerpBetween | src/cmps/GalaxyMode/GalaxyScene.jsx:337-341 | with t in [0, 1] the eased value lies between the current value and the target; its distance to the target shrinks by the factor 1 − t; t = 0 and t = 1 give the ends |
| GalaxyScene.LerpVecIsLerp | src/cmps/GalaxyMode/GalaxyScene.jsx:91 | easing a vector eases each coordinate |
| GalaxyScene.CardTargetCases | src/cmps/GalaxyMode/GalaxyScene.jsx:88-115 | a fist gives scale 2.5 (×1.5 when selected, ×1.15 when hovered, selection first), photo opacity 1 and star opacity 0; any other gesture gives 0.06/0/1; the opacities sum to 1; the target position is the dispersed one exactly for the open palm |
| GalaxyScene.CardStepValid | src/cmps/GalaxyMode/GalaxyScene.jsx:81-121 | frames of at most a third of a second keep both opacities in [0, 1] and the scale positive, and never move the scale away from its target |
| GalaxyScene.PhotoCard.constructor | src/cmps/GalaxyMode/GalaxyScene.jsx:17-20 | a card starts as a visible star: scale 0.06, photo hidden, star opaque, not hovered |
| GalaxyScene.PhotoCard.PointerOver | src/cmps/GalaxyMode/GalaxyScene.jsx:191 | hovering sets only the hover flag |
| GalaxyScene.PhotoCard.PointerOut | src/cmps/GalaxyMode/GalaxyScene.jsx:192 | leaving clears only the hover flag |
| GalaxyScene.PhotoCard.Frame | src/cmps/GalaxyMode/GalaxyScene.jsx:81-121 | one card frame, as `CardStep` specifies |
| GalaxyScene.CameraOrbit | src/cmps/GalaxyMode/GalaxyScene.jsx:344-369 | the orbit eases towards the hand only under an open palm or a fist; under any other gesture the azimuth grows by 0.1·delta and the polar angle stays |
| GalaxyScene.CameraDistanceConverges | src/cmps/GalaxyMode/GalaxyScene.jsx:337-341 | holding a gesture and hand still, after any run of frames the camera distance is no farther from the target zoom than at the start and lies between the start and the target |
| GalaxyScene.CameraController.constructor | src/cmps/GalaxyMode/GalaxyScene.jsx:311-313 | the camera starts at distance 45, azimuth 0, polar π/3 |
| GalaxyScene.CameraController.Frame | src/cmps/GalaxyMode/GalaxyScene.jsx:331-370 | one camera frame, as `CameraStep` specifies |
| GalaxyScene.ParticlesFollowHand | src/cmps/GalaxyMode/GalaxyScene.jsx:250-278 | a centred hand under a steering gesture eases the rotation towards zero; otherwise the particles spin slowly |
| GalaxyScene.GalaxyParticles.constructor | src/cmps/GalaxyMode/GalaxyScene.jsx:210-211 | both rotations start at 0 |
| GalaxyScene.GalaxyParticles.Frame | src/cmps/GalaxyMode/GalaxyScene.jsx:250-278 | one particle frame, as `ParticlesStep` specifies |
| GalaxyScene.LightingByGesture | src/cmps/GalaxyMode/GalaxyScene.jsx:402 | ambient is above 0.8 exactly for a fist; bloom is 0.6 exactly for the open palm, 0.3 exactly for a fist, otherwise 0.4 (also lines 458) |
| PostReducer.Find | src/store/reducers/post.reducer.js:24-26 | `find`: none exactly when no post has the id, otherwise a post with that id |
| PostReducer.RemoveId | src/store/reducers/post.reducer.js:27 | the filter keeps exactly the posts with another id and changes nothing when no post has the id |
| PostReducer.RemoveIdAppend | src/store/reducers/post.reducer.js:27 | the filter distributes over concatenation, so the survivors keep their order |
| PostReducer.ReplaceById | src/store/reducers/post.reducer.js:34-36 | same length; each post with the id is replaced and the others are kept in place |
| PostReducer.WithComment | src/store/reducers/post.reducer.js:55-63 | the comment is appended to the post's comments (missing comments count as []) and nothing else changes |
| PostReducer.CommentById | src/store/reducers/post.reducer.js:59-66 | same length; every post with the id gets the comment and the others are kept |
| PostReducer.SettersReplaceOneField | src/store/reducers/post.reducer.js:17-22 | SET_POSTS replaces the posts and SET_POST the page post; the other fields are unchanged |
| PostReducer.RemovePostEffect | src/store/reducers/post.reducer.js:23-29 | REMOVE_POST drops every post with the id, keeps the others, keeps the page post, and records as last removed the first match (none if no match) |
| PostReducer.AddPostAppends | src/store/reducers/post.reducer.js:30-32 | ADD_POST appends at the end: one post longer with the old posts first |
| PostReducer.AddThenRemove | src/store/reducers/post.reducer.js:23-32 | removing a just-added post whose id was new restores the list and records that post as last removed |
| PostReducer.UpdatePostEffect | src/store/reducers/post.reducer.js:33-46 | UPDATE_POST replaces exactly the posts with the id, keeps the length, and replaces the page post only when its id matches |
| PostReducer.AddCommentEffect | src/store/reducers/post.reducer.js:47-68 | under its guard ADD_POST_COMMENT appends the comment to the page post and to every feed post with the id |
| PostReducer.AddCommentFallsThrough | src/store/reducers/post.reducer.js:47-72 | without a comment, without a page post or for another post the case returns the state unchanged, so with no page post the feed does not get the comment |
| PostReducer.UnknownIsIdentity | src/store/reducers/post.reducer.js:70-72 | an unknown action returns the state it was given (also line 14) |
| PostReducer.LastRemovedComesFromList | src/store/reducers/post.reducer.js:13-73 | the last removed post changes only on REMOVE_POST, and then to a post of the list with that id, or to none |
| PostService.IndexOfUser | src/services/post/post.service.local.js:132 | `findIndex` on user ids: −1 exactly when absent, otherwise the first position with the id |
| PostService.IdCountAppend | src/services/post/post.service.local.js:132-140 | entry counts add up over concatenation and the other users keep their order |
| PostService.IdCountZero | src/services/post/post.service.local.js:132-140 | no entry with the id exactly when the count is 0, and then the other users are the whole list |
| PostService.ToggleLiker | src/services/post/post.service.local.js:132-140 | when the user has an entry, the result is the list without the first entry of the user (its count drops by one); otherwise `{_id, fullname, imgUrl}` is appended and the count becomes 1; either way the other users' entries keep their order |
| PostService.RemoveFirstLiker | src/services/post/post.service.local.js:132-136 | dropping an entry with the id removes one of that id's entries and keeps the other users' entries in order |
| PostService.ToggleLikerTwice | src/services/post/post.service.local.js:132-140 | toggling an absent user twice restores the list; with at most one entry, toggling twice restores whether the user likes the post |
| PostService.ToggleLikeOn | src/services/post/post.service.local.js:119-144 | with no user it fails as not logged in; a post without a like list fails; otherwise the like list is toggled |
| PostService.IndexOf | src/services/post/post.service.local.js:156 | `indexOf`: −1 exactly when absent, otherwise the first position of the value |
| PostService.ToggleId | src/services/post/post.service.local.js:156-163 | a present id's first occurrence is removed, leaving the rest in order (one occurrence fewer as a multiset); an absent one is appended |
| PostService.ToggleIdTwice | src/services/post/post.service.local.js:156-163 | toggling an absent id twice restores the list; with at most one occurrence, toggling twice restores membership |
| PostService.IndexOfComment | src/services/post/post.service.local.js:149 | `find` on comment ids as an index: −1 exactly when absent, otherwise the first match |
| PostService.ToggleLikeCommentOn | src/services/post/post.service.local.js:145-169 | a post without comments fails; an unknown comment fails; otherwise only the first comment with the id changes, its likes (missing counts as []) are toggled, and the result says whether the user was absent |
| PostService.RemoveComments | src/services/post/post.service.local.js:113 | keeps exactly the comments with another id and changes nothing when none has the id |
| PostService.RemoveCommentsAppend | src/services/post/post.service.local.js:113 | the filter distributes over concatenation, so the kept comments keep their order |
| PostService.DeleteCommentOn | src/services/post/post.service.local.js:111-117 | fails exactly for a post without comments; otherwise the comments lose every comment with the id |
| PostService.NewComment | src/services/post/post.service.local.js:98-104 | the new comment has the given id and text, the logged-in user as author, and no likes |
| PostService.AddCommentOn | src/services/post/post.service.local.js:94-109 | fails exactly for a post without comments; otherwise exactly one comment is appended at the end and nothing else changes |
| PostService.SavedRecord | src/services/post/post.service.local.js:70-92 | an existing post (non-empty id) stores only its id and text; a new one gets the new id, keeps its text, image and location, its comments, likes and tags default to empty lists, and its author defaults to the logged-in user |
| PostService.LocalPostService.constructor | src/services/post/post.service.local.js:7-19 | the service over a given store and user |
| PostService.LocalPostService.GetById | src/services/post/post.service.local.js:61-63 | fails exactly for an id not in the store; otherwise it is the stored post |
| PostService.LocalPostService.Put | src/services/post/post.service.local.js:72-76 | replaces the post filed under its id, and fails for an unknown id without changing the store |
| PostService.LocalPostService.Update | src/services/post/post.service.local.js:94-169 | stores an update computed from the fetched post when it succeeded, and nothing otherwise |
| PostService.LocalPostService.TogglePostLike | src/services/post/post.service.local.js:119-144 | an unknown post fails; otherwise the result is `ToggleLikeOn` of the stored post and the store changes exactly when it succeeds |
| PostService.LocalPostService.ToggleLikeComment | src/services/post/post.service.local.js:145-169 | an unknown post fails; otherwise the result is `ToggleLikeCommentOn`, stored when it succeeds, returning `isLiked` |
| PostService.LocalPostService.DeletePostComment | src/services/post/post.service.local.js:111-117 | an unknown post fails; otherwise `DeleteCommentOn` is stored and the ids are returned |
| PostService.LocalPostService.AddPostComment | src/services/post/post.service.local.js:94-109 | an unknown post fails; otherwise the new comment is appended, stored and returned with the post id |
| PostService.LocalPostService.Save | src/services/post/post.service.local.js:70-92 | stores `SavedRecord`: an existing post replaces its entry (unknown id fails), a new post is filed under the new id |
| PostService.TogglePostLikeTwice | src/services/post/post.service.local.js:119-144 | a logged-in user toggling a post twice, with at most one entry, keeps whether they like it |
| PostService.FilterByLikes | src/services/post/post.service.local.js:31-33 | a threshold of 0 keeps everything; otherwise exactly the posts whose count is present and at least the threshold |
| PostService.Insert | src/services/post/post.service.local.js:40-44 | inserts one post: the result is the input plus that post, as a multiset |
| PostService.SortByLikes | src/services/post/post.service.local.js:40-44 | the sort is a permutation of its input |
| PostService.CompareIsKeyDifference | src/services/post/post.service.local.js:42 | with both counts present the comparator is the difference of `dir · likesCount` |
| PostService.ConsSorted | src/services/post/post.service.local.js:40-44 | a post no greater than every post of a sorted list can go in front |
| PostService.InsertMembers | src/services/post/post.service.local.js:40-44 | insertion changes membership by exactly the inserted post |
| PostService.InsertCounted | src/services/post/post.service.local.js:40-44 | insertion keeps every count present |
| PostService.InsertSorted | src/services/post/post.service.local.js:40-44 | insertion into a sorted list keeps it sorted |
| PostService.SortByLikesSorts | src/services/post/post.service.local.js:40-44 | with every count present the sort orders by count, ascending for a positive direction and descending for a negative one |
| PostService.SortWithoutDirectionKeepsOrder | src/services/post/post.service.local.js:40-44 | with no direction every comparison is 0 and the stable sort keeps the order |
| PostService.Project | src/services/post/post.service.local.js:46-57 | the projection keeps `_id, txt, imgUrl, by, loc, comments, likedBy, tags` and drops the rest |
| PostService.ProjectAll | src/services/post/post.service.local.js:46-57 | each post is projected in place |
| PostService.QueryResult | src/services/post/post.service.local.js:21-59 | the query returns as many entries as pass the likes filter, the projections of the filtered posts; with the likes sort they are a permutation, ordered by count when every count is present; without it, or with no direction, they keep the stored order |
| PostService.QueryEntries | src/services/post/post.service.local.js:31-57 | with a threshold, every returned entry is the projection of a stored post whose count is present and reaches the threshold |
| EventBus.Subscribed | src/services/event-bus.service.js:7-9 | `on` appends the listener to its event's list, creating the list if absent, and leaves every other event's list alone |
| EventBus.Without | src/services/event-bus.service.js:11-13 | the filter removes every occurrence of the listener, keeps exactly the others, and changes nothing when it was absent |
| EventBus.WithoutCounts | src/services/event-bus.service.js:11-13 | every other listener keeps its number of registrations |
| EventBus.WithoutAppend | src/services/event-bus.service.js:11-13 | the filter distributes over concatenation, so the others keep their order |
| EventBus.Unsubscribed | src/services/event-bus.service.js:10-14 | unsubscribe filters only its event's list and leaves every other event's list alone |
| EventBus.SubscribeThenUnsubscribe | src/services/event-bus.service.js:6-15 | subscribing a new listener and unsubscribing it restores the event's list, or leaves an empty one |
| EventBus.Emitter.constructor | src/services/event-bus.service.js:3-5 | a new emitter has no lists |
| EventBus.Emitter.On | src/services/event-bus.service.js:6-9 | the map becomes `Subscribed` of the old one |
| EventBus.Emitter.Unsubscribe | src/services/event-bus.service.js:10-14 | the map becomes `Unsubscribed` of the old one |
| EventBus.Emitter.Emit | src/services/event-bus.service.js:16-19 | no call for an event without a list; otherwise one call per listener, in registration order, each with the same data |
| EventBus.ShowUserMsg | src/services/event-bus.service.js:25-27 | the message goes to every show-msg listener in order |
| EventBus.ShowSuccessMsg | src/services/event-bus.service.js:33-35 | every show-msg listener gets `{txt, type: 'success'}` |
| EventBus.ShowErrorMsg | src/services/event-bus.service.js:36-38 | every show-msg listener gets `{txt, type: 'error'}` |
| EventBus.ShowGeneralMsg | src/services/event-bus.service.js:40-42 | every show-msg listener gets `{txt, type: 'general'}` |
| EventBus.ShowLoadingMsg | src/services/event-bus.service.js:44-46 | every show-msg listener gets `{txt: 'Loading...', type: 'loading'}` |
| EventBus.ConfirmMsg | src/services/event-bus.service.js:29-50 | every show-msg listener gets `{txt, type: 'confirm'}` |
| Search.LowerCharIdempotent | src/cmps/Search.jsx:33-36 | lower-casing a character twice is lower-casing it once |
| Search.ToLowerIdempotent | src/cmps/Search.jsx:33-36 | lower-casing a string twice is lower-casing it once |
| Search.MatchIgnoresCase | src/cmps/Search.jsx:33-36 | the match ignores the case of the term, and the empty term matches every user |
| Search.FilterUsers | src/cmps/Search.jsx:33-36 | keeps exactly the users whose lower-cased username or full name contains the lower-cased term |
| Search.FilterUsersAppend | src/cmps/Search.jsx:33-36 | the filter distributes over concatenation, so the matching users keep their order and multiplicity |
| Search.WithoutUser | src/cmps/Search.jsx:47-67 | keeps exactly the users with another id and changes nothing when no user has the id |
| Search.WithoutUserAppend | src/cmps/Search.jsx:67 | the filter distributes over concatenation, so the kept users keep their order |
| Search.WithoutUserDistinct | src/cmps/Search.jsx:47-67 | filtering keeps distinct ids distinct |
| Search.Recent | src/cmps/Search.jsx:47 | the clicked user is first, then the old recents without that id, cut to 10 entries in all |
| Search.RecentProperties | src/cmps/Search.jsx:47 | every later entry is an earlier recent with another id, and distinct ids stay distinct |
| Search.ClickFirstAgain | src/cmps/Search.jsx:47 | clicking the user already first, with distinct ids, keeps the list |
| Search.ResultsAfterCases | src/cmps/Search.jsx:21-43 | a blank term gives no results; otherwise, when the user service answers, exactly the matching users |
| Search.SearchPanel.constructor | src/cmps/Search.jsx:7-19 | empty term and results, not loading, and the saved recents if any |
| Search.LateReplyAfterBlankTerm | src/cmps/Search.jsx:21-43 | with overlapping requests, a blank term empties the results and a late reply for an older non-blank term then puts that term's matches back under the blank term |
| Search.SearchPanel.TypeTerm | src/cmps/Search.jsx:21-31 | the term is set; a blank term empties the results and issues nothing; any other term issues a request and turns loading on, keeping the results |
| Search.SearchPanel.ReceiveReply | src/cmps/Search.jsx:32-42 | the reply sets the results to the matches of the term the request was issued for, whatever the current term; a failed request keeps them; loading ends either way |
| Search.SearchPanel.SetSearchTerm | src/cmps/Search.jsx:21-43 | typing followed at once by the reply: the term is set; the results follow `ResultsAfter`, keeping the previous results when the service fails; a non-blank term ends with loading off, a blank one leaves the flag |
| Search.SearchPanel.HandleUserClick | src/cmps/Search.jsx:45-54 | the recents become `Recent(old recents, user)` |
| Search.SearchPanel.ClearSearch | src/cmps/Search.jsx:56-59 | term and results are reset |
| Search.SearchPanel.ClearAllRecent | src/cmps/Search.jsx:61-64 | the recents are emptied |
| Search.SearchPanel.RemoveFromRecent | src/cmps/Search.jsx:66-70 | the recents lose every entry with the id, in order |
| PostDetails.NavigationStaysInRange | src/cmps/PostDetailsContent.jsx:93-105 | prev goes to i − 1 exactly when i > 0, next to i + 1 exactly when i is not last, both only while navigation is possible; the target stays in the list |
| PostDetails.InitiallyLiked | src/cmps/PostDetailsContent.jsx:26-29 | the initial flag holds exactly when a user is logged in and some like entry has that user's id |
| PostDetails.AnyWithId | src/cmps/PostDetailsContent.jsx:28 | `some` on ids holds exactly when an entry has the id |
| PostDetails.WithoutId | src/cmps/PostDetailsContent.jsx:116 | the filter removes every occurrence of the id and keeps every other id with its multiplicity, so the length drops by the id's count |
| PostDetails.WithoutIdAppend | src/cmps/PostDetailsContent.jsx:116 | the filter distributes over concatenation, so the kept ids keep their order |
| PostDetails.ToggleCommentLike | src/cmps/PostDetailsContent.jsx:110-121 | whether the comment likes include the user flips; only the likes change; a like appends exactly the user at the end of the (possibly missing) list; an unlike is the order-preserving filter of the user; the shown likes count grows by one or drops by the user's entries |
| PostDetails.ToggleLikeById | src/cmps/PostDetailsContent.jsx:110-121 | same length; exactly the comments with the id are toggled |
| PostDetails.ToggleLikeByIdEffect | src/cmps/PostDetailsContent.jsx:110-121 | only the matching comments change, only in their likes, whose inclusion of the user flips; toggling twice restores each comment's like |
| PostDetails.DraftComment | src/cmps/PostDetailsContent.jsx:53-58 | the optimistic comment has the text, the author's brief, no id and no likes |
| PostDetails.PostDetailsPanel.constructor | src/cmps/PostDetailsContent.jsx:21-29 | comments from the post (none if absent), empty input, the initial like flag |
| PostDetails.PostDetailsPanel.PropsChanged | src/cmps/PostDetailsContent.jsx:32-38 | a new post or user reloads the comments and the like flag |
| PostDetails.PostDetailsPanel.SetCommentTxt | src/cmps/PostDetailsContent.jsx:21 | only the input text changes |
| PostDetails.PostDetailsPanel.HandleLike | src/cmps/PostDetailsContent.jsx:40-45 | the like flag flips and nothing else changes |
| PostDetails.PostDetailsPanel.HandleAddComment | src/cmps/PostDetailsContent.jsx:47-65 | a blank text or no user changes nothing; otherwise exactly one draft comment is appended, the input is cleared and the text is sent |
| PostDetails.PostDetailsPanel.HandleDeleteComment | src/cmps/PostDetailsContent.jsx:67-79 | the comments lose every comment with the id at once |
| PostDetails.PostDetailsPanel.HandleToggleLikeComment | src/cmps/PostDetailsContent.jsx:107-130 | with a user the matching comments' likes are toggled; with none nothing changes |
| PostDetails.DraftSurvivesDelete | src/cmps/PostDetailsContent.jsx:53-73 | a comment added on the panel has no id, so deleting any stored comment keeps it |
| CreatePost.NewPost | src/cmps/CreatePost.jsx:89-99 | the new post has the caption, the uploaded URL, the user's brief as author, and empty likes and comments |
| CreatePost.Clip | src/cmps/CreatePost.jsx:201-202 | the `maxLength` of the caption box, read as keeping a prefix of at most 2200 characters of the delivered value and keeping short texts whole (see Left out for how the browser differs) |
| CreatePost.InitialValid | src/cmps/CreatePost.jsx:10-16 | the wizard starts valid, in the upload step, with nothing to lose |
| CreatePost.OfferedKeepsValid | src/cmps/CreatePost.jsx:20-110 | every event the screen offers keeps the invariant: past the upload step there is an image and a preview (also lines 134-142) |
| CreatePost.RunKeepsValid | src/cmps/CreatePost.jsx:20-110 | any sequence of offered events from a valid state ends valid, so the caption step always has an image (also lines 134-142) |
| CreatePost.NextWithoutImage | src/cmps/CreatePost.jsx:55-57 | the next handler has no guard of its own: from the upload step it reaches the caption step without an image |
| CreatePost.FileSelectCases | src/cmps/CreatePost.jsx:20-32 | an image file leads to the preview with its data URL; any other file leaves the state and raises the error toast |
| CreatePost.BackCases | src/cmps/CreatePost.jsx:59-67 | back from the caption keeps the image; back from the preview drops image and preview; in the upload step nothing changes |
| CreatePost.CloseCases | src/cmps/CreatePost.jsx:69-80 | closing asks to discard exactly when there is a preview or a caption, and closes otherwise; discard closes |
| CreatePost.ShareCases | src/cmps/CreatePost.jsx:82-110 | without an image or a user nothing changes; otherwise the upload either succeeds and closes, or fails with the toast; uploading ends either way |
| CreatePost.CreatePostModal.constructor | src/cmps/CreatePost.jsx:10-16 | the initial wizard |
| CreatePost.CreatePostModal.HandleFileSelect | src/cmps/CreatePost.jsx:20-32 | `handleFileSelect`, as `Apply` specifies |
| CreatePost.CreatePostModal.HandleDragOver | src/cmps/CreatePost.jsx:46-49 | sets dragging |
| CreatePost.CreatePostModal.HandleDragLeave | src/cmps/CreatePost.jsx:51-53 | clears dragging |
| CreatePost.CreatePostModal.HandleDrop | src/cmps/CreatePost.jsx:39-44 | clears dragging, then selects the dropped file if any |
| CreatePost.CreatePostModal.HandleNext | src/cmps/CreatePost.jsx:55-57 | goes to the caption step |
| CreatePost.CreatePostModal.HandleBack | src/cmps/CreatePost.jsx:59-67 | `handleBack` |
| CreatePost.CreatePostModal.HandleOverlayClick | src/cmps/CreatePost.jsx:69-75 | `handleOverlayClick` |
| CreatePost.CreatePostModal.HandleDiscard | src/cmps/CreatePost.jsx:77-80 | `handleDiscard` |
| CreatePost.CreatePostModal.HandleCancelDiscard | src/cmps/CreatePost.jsx:69-80 | hides the discard dialog |
| CreatePost.CreatePostModal.HandleCaptionChange | src/cmps/CreatePost.jsx:201-202 | the caption becomes the clipped text, so it never exceeds 2200 characters (see Left out for how the browser differs) |
| CreatePost.CreatePostModal.HandleShare | src/cmps/CreatePost.jsx:82-110 | `handleShare`, as `DoShare` specifies |
| Upload.Resize | src/services/upload.service.js:18-29 | a wide image over the limit gets width max and proportional height; otherwise a tall one over the limit gets height max; both sides end within [0, max], the aspect ratio is kept, and an image within bounds is unchanged |
| Upload.ScaleDown | src/services/upload.service.js:19-29 | scaling the longer side down to the limit scales the shorter one by the same factor, keeping the ratio and fitting it within the limit |
| Upload.PickUrl | src/services/upload.service.js:83-90 | a failed status is the upload error with the host's message or "Unknown error"; otherwise `secure_url`, else `url`, and an error exactly when neither is present |
| Upload.UploadImg | src/services/upload.service.js:57-97 | the compressed file is sent exactly when the file exceeds 8·1024·1024 bytes; a failed request is an error; otherwise the result is `PickUrl` of the reply |

## Left out

- MediaPipe loading, the delegate fallback, the camera, video and canvas
  drawing, the animation-frame loop, FPS and debug info, and teardown. The
  recognition result is an input to `ProcessFrame`.
- Real timers. The 300 ms cooldown, the 100 ms swipe pulse and the 500 ms
  exit are deadlines fired by `Tick(now)`. `Date.now()` is the `now`
  parameter.
- Three.js rendering is left out, along with:
  - the spiral and scattered layouts;
  - the camera's spherical position;
  - the random particles and the star twinkle.

  Base and dispersed positions and the chosen angles are inputs.
- IEEE floating point. Coordinates, sizes and intensities are `real`. The
  velocity test `|dx| / (dt / 1000) > 0.3` is written as
  `dt >= 0 && |dx| · 1000 > 0.3 · dt`. These agree for every outcome,
  including a zero or negative `dt`.
- The JPEG quality loop of `compressImage`, image decoding and `toBlob`.
- The request itself (`fetch`). A failed request is `None`.
- The regular-expression text filter and the `localeCompare` text sort of
  `query`. These are JavaScript RegExp and Intl semantics.
- The asynchronous storage service and `localStorage`:
  - The store is a map field. A lookup of an unknown id fails.
  - The listing `query` starts from is an input.
  - Saving the recent searches to `localStorage` is not modelled.
  - Seeding the demo posts is not modelled.
- `makeId`, the storage's generated ids and `Date.now()` for comments are
  parameters. Their uniqueness is not modelled.
- CreatePost.FileSelect: the file reader is not modelled. Its data URL
  arrives with the file-select event, so the image, the preview URL and the
  preview step change together. A read that ends with a null result
  (`onloadend` at `src/cmps/CreatePost.jsx:24-27` still sets the step) would
  reach the preview step with no preview URL, and the moment between choosing
  the file and the read ending, when only the image is set, is not covered.
- CreatePost.Valid: an image and a preview past the upload step hold only
  because the model's reads always succeed; after a failed read the source
  would be on the preview step without a preview URL.
- The store actions, the user service and navigation. The user service's
  answer is a parameter of `SetSearchTerm` and `ReceiveReply`. Whether the store accepted a new
  post is a parameter of `HandleShare`.
- `handleDeletePost`, `toggleDeleteMenu` and the delete menu in
  `PostDetailsContent.jsx`. They call the store and toggle markup and hold no
  logic of their own.
- The `window.*` debug hooks, and `js/main.js`.
- Js.ToLower: the case mapping covers ASCII letters only. Full Unicode case
  mapping is not modelled.
- CreatePost.Clip: the browser enforces `maxLength` differently in two ways.
  It counts UTF-16 code units, so a character outside the Basic Multilingual
  Plane (an emoji) counts twice there and once here. And it refuses or cuts
  the inserted text at the caret, so typing into a full box leaves the value
  unchanged, while `Clip` keeps the first 2200 characters of the whole new
  value and so can drop the old tail. The caption is still never longer than
  2200 characters in either, which is all `Valid` relies on.
- CreatePost.CreatePostModal.HandleCaptionChange: inherits both differences
  of `Clip`.
- GalaxyMode.CloseResets: stated over the corrected Victory effect, which
  enters photo view only while the mode is open. As written, the reset is
  undone while Victory is held; see Findings.
- PostService.ToggleLikerTwice: the restored like is stated only for lists
  with at most one entry of the user. With two entries a toggle removes only
  the first, so the user still likes the post after one toggle and is
  appended again after two.
- PostService.ToggleIdTwice: the same restriction, for comment likes.
- Upload.Resize: requires a positive limit. The only limit the source uses is
  1920.
- Search.SearchPanel.SetSearchTerm: it is the case where the reply comes
  before the next term change, so only the final loading flag is stated. The
  pending request (loading on) and overlapping requests are modelled by
  `TypeTerm` and `ReceiveReply` called in any order, where a late reply for
  an older term replaces the results of a newer one (`LateReplyAfterBlankTerm`).
- PostService.LocalPostService.Put: the storage service
  (`async-storage.service`) is not part of this model. Its `put` is taken to
  replace the whole record filed under the id and to fail for an unknown id.
  What `Save` and `SavedRecord` leave in the store for an existing post (only
  its id and text) rests on that reading; a merging `put` would keep the other
  fields.
- PostService.SortByLikes: when only some posts have a `likesCount`, the
  comparator (a missing count gives `NaN`, which acts as 0) is not
  consistent, and ECMAScript leaves the order of `sort` to the
  implementation. The stable insertion order of the model is one possible
  choice; `SortByLikesSorts` is stated only when every count is present.

Two details of the frame step, as the code has them:

- A frame whose recognition throws returns before any state changes. It is not
  counted as a frame without a hand.
- The Victory override sits inside the branch that has a gesture list. A hand
  with no gesture list clears the gesture even in a Victory pose.

## Findings

| source | as written | input that shows it | evidently intended | confidence | as-written member | corrected member |
|---|---|---|---|---|---|---|
| src/cmps/GalaxyMode/GalaxyMode.jsx:26-31, 87-94 | closing resets the index and photo view, but the Victory effect does not check `isOpen`; the tracking hook is disabled by the close and never clears `gesture`, so the next render re-enters photo view at index 0 | mode open with photos, Victory held, then `isOpen` becomes false | closing leaves photo view off and the selection cleared until the mode is opened again | not executed | GalaxyMode.CloseWhileVictoryReentersPhotoView | GalaxyMode.CloseResets |
