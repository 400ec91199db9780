/**
 * The create-post wizard (src/cmps/CreatePost.jsx): upload, then preview,
 * then caption and share. The file reader, the upload and the store call are
 * asynchronous in the source; here the reader's result, the upload's result
 * and whether the store accepted the post are parameters of the event that
 * uses them. An error toast is returned as its text.
 */
module CreatePost {
  import opened Wrappers
  import opened Entities

  const CaptionMaxLength: nat := 2200
  const NotAnImageMsg: string := "Please select an image file"
  const ShareFailedMsg: string := "Failed to create post"

  datatype Step = Upload | Preview | Caption

  /** `s.startsWith(prefix)`. */
  predicate StartsWith(s: string, prefix: string) {
    |prefix| <= |s| && s[..|prefix|] == prefix
  }

  predicate IsImage(f: File) {
    StartsWith(f.mimeType, "image/")
  }

  /** The component's state; `closed` records that `onClose` was called. */
  datatype Wizard = Wizard(
    step: Step,
    selectedImage: Option<File>,
    previewUrl: Option<string>,
    caption: string,
    isDragging: bool,
    isUploading: bool,
    showDiscardModal: bool,
    closed: bool)

  const Initial: Wizard := Wizard(Upload, None, None, "", false, false, false, false)

  /** What a share attempt did. */
  datatype ShareOutcome = Skipped | Shared(post: Post) | Failed(msg: string)

  /** The user events. `SelectFile` carries the data URL the reader produces;
      `Share` the upload's result and whether the store took the post. */
  datatype Action =
    | SelectFile(file: File, dataUrl: string)
    | DragOver
    | DragLeave
    | Drop(dropped: Option<File>, droppedUrl: string)
    | Next
    | Back
    | OverlayClick
    | Discard
    | CancelDiscard
    | SetCaption(txt: string)
    | Share(user: Option<User>, upload: Result<string, string>, added: bool)

  /** `handleFileSelect`: an image moves to the preview; anything else only
      raises the error toast. */
  function FileSelect(w: Wizard, f: File, dataUrl: string): (Wizard, Option<string>) {
    if IsImage(f) then (w.(selectedImage := Some(f), previewUrl := Some(dataUrl), step := Preview), None)
    else (w, Some(NotAnImageMsg))
  }

  /** `handleBack`. */
  function GoBack(w: Wizard): Wizard {
    match w.step
    case Caption => w.(step := Preview)
    case Preview => w.(step := Upload, previewUrl := None, selectedImage := None)
    case Upload => w
  }

  /** `previewUrl || caption`: there is something to lose. */
  predicate HasDraft(w: Wizard) {
    (w.previewUrl != None && w.previewUrl.value != "") || w.caption != ""
  }

  /** The post `handleShare` creates. */
  function NewPost(caption: string, imgUrl: string, u: User): (p: Post)
    ensures p.txt == caption && p.imgUrl == imgUrl && p.author == Some(Brief(u))
    ensures p.likedBy == Some([]) && p.comments == Some([]) && p.id == ""
  {
    Post("", caption, imgUrl, Some(Brief(u)), None, Some([]), Some([]), None, None, "")
  }

  /** `handleShare`: nothing without an image or a user; otherwise upload,
      build and add the post, close on success, and report a failure of
      either step; `isUploading` is cleared in every case. */
  function DoShare(w: Wizard, user: Option<User>, upload: Result<string, string>, added: bool): (Wizard, ShareOutcome) {
    if w.selectedImage == None || user == None then (w, Skipped)
    else if upload.Err? then (w.(isUploading := false), Failed(ShareFailedMsg))
    else
      var p := NewPost(w.caption, upload.value, user.value);
      if added then (w.(isUploading := false, closed := true), Shared(p))
      else (w.(isUploading := false), Failed(ShareFailedMsg))
  }

  /** The caption box keeps at most 2200 characters. */
  function Clip(txt: string): (r: string)
    ensures |r| <= CaptionMaxLength && |r| <= |txt| && r == txt[..|r|]
    ensures |txt| <= CaptionMaxLength ==> r == txt
  {
    if |txt| <= CaptionMaxLength then txt else txt[..CaptionMaxLength]
  }

  /** One event: the new state and the toast it raises, if any. */
  function Apply(w: Wizard, a: Action): (Wizard, Option<string>) {
    match a
    case SelectFile(f, url) => FileSelect(w, f, url)
    case DragOver => (w.(isDragging := true), None)
    case DragLeave => (w.(isDragging := false), None)
    case Drop(f, url) =>
      var w1 := w.(isDragging := false);
      if f == None then (w1, None) else FileSelect(w1, f.value, url)
    case Next => (w.(step := Caption), None)
    case Back => (GoBack(w), None)
    case OverlayClick =>
      if HasDraft(w) then (w.(showDiscardModal := true), None) else (w.(closed := true), None)
    case Discard => (w.(showDiscardModal := false, closed := true), None)
    case CancelDiscard => (w.(showDiscardModal := false), None)
    case SetCaption(txt) => (w.(caption := Clip(txt)), None)
    case Share(user, upload, added) =>
      var (w1, out) := DoShare(w, user, upload, added);
      (w1, if out.Failed? then Some(out.msg) else None)
  }

  /** The buttons the current step shows: back outside the upload step, next
      in the preview, share in the caption step, the file picker and drop zone
      in the upload step. */
  predicate Offered(w: Wizard, a: Action) {
    match a
    case SelectFile(_, _) => w.step == Upload
    case Drop(_, _) => w.step == Upload
    case Next => w.step == Preview
    case Back => w.step != Upload
    case Share(_, _, _) => w.step == Caption
    case SetCaption(_) => w.step == Caption
    case _ => true
  }

  /** The wizard's invariant: past the upload step there is an image and a
      preview, the caption respects its limit, and no upload is in flight
      between events. */
  predicate Valid(w: Wizard) {
    (w.step != Upload ==> w.selectedImage != None && w.previewUrl != None)
    && (w.selectedImage == None <==> w.previewUrl == None)
    && |w.caption| <= CaptionMaxLength
    && !w.isUploading
  }

  lemma InitialValid()
    ensures Valid(Initial) && Initial.step == Upload && !HasDraft(Initial)
  {
  }

  /** Every event the screen offers keeps the invariant. */
  lemma OfferedKeepsValid(w: Wizard, a: Action)
    requires Valid(w) && Offered(w, a)
    ensures Valid(Apply(w, a).0)
  {
  }

  /** The state after a sequence of events. */
  function Run(w: Wizard, actions: seq<Action>): Wizard
    decreases |actions|
  {
    if actions == [] then w else Run(Apply(w, actions[0]).0, actions[1..])
  }

  /** Each event offered by the screen it reaches. */
  predicate AllOffered(w: Wizard, actions: seq<Action>)
    decreases |actions|
  {
    actions == [] || (Offered(w, actions[0]) && AllOffered(Apply(w, actions[0]).0, actions[1..]))
  }

  /** Whatever the user does through the screen, from the start, the wizard
      never reaches a step past the upload without an image and a preview. */
  lemma {:induction false} RunKeepsValid(w: Wizard, actions: seq<Action>)
    requires Valid(w) && AllOffered(w, actions)
    ensures Valid(Run(w, actions))
    ensures Run(w, actions).step != Upload ==> Run(w, actions).selectedImage != None
    decreases |actions|
  {
    if actions != [] {
      OfferedKeepsValid(w, actions[0]);
      RunKeepsValid(Apply(w, actions[0]).0, actions[1..]);
    }
  }

  /** The next handler itself has no guard: called in the upload step it
      reaches the caption step without an image. */
  lemma NextWithoutImage()
    ensures var w := Apply(Initial, Next).0; w.step == Caption && w.selectedImage == None && !Valid(w)
  {
  }

  /** Only images are accepted, and exactly they lead to the preview; any
      other file changes nothing and raises the toast. */
  lemma FileSelectCases(w: Wizard, f: File, url: string)
    ensures var (w1, msg) := Apply(w, SelectFile(f, url));
      && (IsImage(f) <==> msg == None)
      && (IsImage(f) ==> w1.step == Preview && w1.selectedImage == Some(f) && w1.previewUrl == Some(url)
                         && w1.caption == w.caption)
      && (!IsImage(f) ==> w1 == w && msg == Some(NotAnImageMsg))
  {
  }

  /** Back from the caption keeps the image; back from the preview drops the
      image and the preview; in the upload step nothing changes. */
  lemma BackCases(w: Wizard)
    ensures var w1 := Apply(w, Back).0;
      && (w.step == Caption ==> w1.step == Preview && w1.selectedImage == w.selectedImage && w1.previewUrl == w.previewUrl)
      && (w.step == Preview ==> w1.step == Upload && w1.selectedImage == None && w1.previewUrl == None)
      && (w.step == Upload ==> w1 == w)
      && w1.caption == w.caption
  {
  }

  /** Closing asks to discard exactly when there is a preview or a caption,
      and closes at once otherwise; discarding hides the question and closes. */
  lemma CloseCases(w: Wizard)
    ensures var w1 := Apply(w, OverlayClick).0;
      (w1.showDiscardModal <==> HasDraft(w) || w.showDiscardModal)
      && (w1.closed <==> !HasDraft(w) || w.closed)
    ensures var w2 := Apply(w, Discard).0; w2.closed && !w2.showDiscardModal
  {
  }

  /** Sharing without an image or a user changes nothing; otherwise the
      upload flag is clear afterwards whatever happened, and a success closes
      the wizard with a post that has the caption, the uploaded URL, the
      author's `{_id, fullname, imgUrl}` and no likes or comments. */
  lemma ShareCases(w: Wizard, user: Option<User>, upload: Result<string, string>, added: bool)
    ensures var (w1, out) := DoShare(w, user, upload, added);
      && (w.selectedImage == None || user == None ==> w1 == w && out == Skipped)
      && (w.selectedImage != None && user != None ==> !w1.isUploading)
      && (out.Shared? <==> w.selectedImage != None && user != None && upload.Ok? && added)
      && (out.Shared? ==> w1.closed && out.post == NewPost(w.caption, upload.value, user.value))
      && (out.Failed? ==> out.msg == ShareFailedMsg && w1.closed == w.closed)
  {
  }

  /** The component. */
  class CreatePostModal {
    var step: Step
    var selectedImage: Option<File>
    var previewUrl: Option<string>
    var caption: string
    var isDragging: bool
    var isUploading: bool
    var showDiscardModal: bool
    var closed: bool

    function State(): Wizard
      reads this
    {
      Wizard(step, selectedImage, previewUrl, caption, isDragging, isUploading, showDiscardModal, closed)
    }

    constructor ()
      ensures State() == Initial
    {
      step := Upload;
      selectedImage := None;
      previewUrl := None;
      caption := "";
      isDragging := false;
      isUploading := false;
      showDiscardModal := false;
      closed := false;
    }

    method HandleFileSelect(f: File, dataUrl: string) returns (toast: Option<string>)
      modifies this
      ensures (State(), toast) == Apply(old(State()), SelectFile(f, dataUrl))
    {
      if StartsWith(f.mimeType, "image/") {
        selectedImage := Some(f);
        previewUrl := Some(dataUrl);
        step := Preview;
        toast := None;
      } else {
        toast := Some(NotAnImageMsg);
      }
    }

    method HandleDragOver()
      modifies this
      ensures State() == Apply(old(State()), DragOver).0
    {
      isDragging := true;
    }

    method HandleDragLeave()
      modifies this
      ensures State() == Apply(old(State()), DragLeave).0
    {
      isDragging := false;
    }

    method HandleDrop(f: Option<File>, dataUrl: string) returns (toast: Option<string>)
      modifies this
      ensures (State(), toast) == Apply(old(State()), Drop(f, dataUrl))
    {
      isDragging := false;
      toast := None;
      if f != None {
        toast := HandleFileSelect(f.value, dataUrl);
      }
    }

    method HandleNext()
      modifies this
      ensures State() == Apply(old(State()), Next).0
    {
      step := Caption;
    }

    method HandleBack()
      modifies this
      ensures State() == Apply(old(State()), Back).0
    {
      if step == Caption {
        step := Preview;
      } else if step == Preview {
        step := Upload;
        previewUrl := None;
        selectedImage := None;
      }
    }

    method HandleOverlayClick()
      modifies this
      ensures State() == Apply(old(State()), OverlayClick).0
    {
      if (previewUrl != None && previewUrl.value != "") || caption != "" {
        showDiscardModal := true;
      } else {
        closed := true;
      }
    }

    method HandleDiscard()
      modifies this
      ensures State() == Apply(old(State()), Discard).0
    {
      showDiscardModal := false;
      closed := true;
    }

    method HandleCancelDiscard()
      modifies this
      ensures State() == Apply(old(State()), CancelDiscard).0
    {
      showDiscardModal := false;
    }

    method HandleCaptionChange(txt: string)
      modifies this
      ensures State() == Apply(old(State()), SetCaption(txt)).0
    {
      caption := if |txt| <= CaptionMaxLength then txt else txt[..CaptionMaxLength];
    }

    method HandleShare(user: Option<User>, upload: Result<string, string>, added: bool) returns (outcome: ShareOutcome)
      modifies this
      ensures (State(), outcome) == DoShare(old(State()), user, upload, added)
    {
      if selectedImage == None || user == None {
        return Skipped;
      }
      isUploading := true;
      if upload.Err? {
        outcome := Failed(ShareFailedMsg);
      } else {
        var newPost := NewPost(caption, upload.value, user.value);
        if added {
          closed := true;
          outcome := Shared(newPost);
        } else {
          outcome := Failed(ShareFailedMsg);
        }
      }
      isUploading := false;
    }
  }

}
