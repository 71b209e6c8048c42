/**
 * The state of the `Home` component and the handlers that change it: attaching
 * a file, sending an edit to the relay, undo and redo. Each handler is one
 * atomic step; its effect on `imageHistory` and `historyIndex` is the matching
 * function of module `History`.
 */
module Editor {
  import opened Wrappers
  import opened Files
  import opened History

  /** The values `stage` takes. */
  datatype Stage = Initial | Attached | Processing

  /** The form `processImage` posts to the relay: the current file and the prompt. */
  datatype Upload = Upload(file: ImageFile, prompt: string)

  /**
   * How the relay call of `processImage` ends: a non-ok response, a thrown
   * error, or the edited image (the object URL made for it and its bytes).
   */
  datatype EditReply = NotOk | Raised | EditedImage(imageUrl: string, bytes: seq<Byte>)

  /** The `File` made from the edited image's bytes. */
  function ProcessedFile(bytes: seq<Byte>): (f: ImageFile)
    ensures f.bytes == bytes && f.mimeType == "image/jpeg"
  {
    ImageFile("processed.jpg", "image/jpeg", bytes)
  }

  class Home {
    var stage: Stage
    var attachedImage: Option<string>
    var originalImage: Option<string>
    var currentFile: Option<ImageFile>
    var prompt: string
    var isProcessing: bool
    var imageHistory: seq<HistoryItem>
    var historyIndex: int

    /** The history and its cursor as one value. */
    function Position(): Cursor
      reads this
    {
      Cursor(imageHistory, historyIndex)
    }

    /**
     * Before any file: no history and nothing shown. Once a file is attached:
     * the cursor lies inside the history, and the displayed image and the
     * current file are the entry it points at.
     */
    ghost predicate Valid()
      reads this
    {
      if stage == Initial then
        imageHistory == [] && historyIndex == 0
        && attachedImage.None? && originalImage.None? && currentFile.None?
      else
        && History.Valid(Position())
        && attachedImage == Some(Current(Position()).imageUrl)
        && currentFile == Some(Current(Position()).file)
        && originalImage.Some?
    }

    /** The component's initial state. */
    constructor ()
      ensures Valid()
      ensures stage == Initial && imageHistory == [] && historyIndex == 0
      ensures prompt == "" && !isProcessing
    {
      stage := Initial;
      attachedImage := None;
      originalImage := None;
      currentFile := None;
      prompt := "";
      isProcessing := false;
      imageHistory := [];
      historyIndex := 0;
    }

    /** The prompt input's `onChange`. */
    method EditPrompt(text: string)
      requires Valid()
      modifies this
      ensures Valid()
      ensures prompt == text
      ensures Position() == old(Position()) && stage == old(stage) && isProcessing == old(isProcessing)
      ensures attachedImage == old(attachedImage) && currentFile == old(currentFile)
      ensures originalImage == old(originalImage)
    {
      prompt := text;
    }

    /** `handleFile`: show the file under its new object URL and start a history of it alone. */
    method HandleFile(file: ImageFile, imageUrl: string)
      requires Valid()
      modifies this
      ensures Valid()
      ensures Position() == Start(HistoryItem(imageUrl, file))
      ensures imageHistory == [HistoryItem(imageUrl, file)] && historyIndex == 0
      ensures attachedImage == Some(imageUrl) && originalImage == Some(imageUrl) && currentFile == Some(file)
      ensures stage == Attached
      ensures prompt == old(prompt) && isProcessing == old(isProcessing)
    {
      attachedImage := Some(imageUrl);
      originalImage := Some(imageUrl);
      currentFile := Some(file);
      stage := Attached;
      imageHistory := [HistoryItem(imageUrl, file)];
      historyIndex := 0;
    }

    /**
     * `processImage` up to the request: without a current file or with an
     * empty prompt nothing happens; otherwise the component enters the
     * processing stage and posts the current file with the prompt.
     */
    method BeginProcessing() returns (upload: Option<Upload>)
      requires Valid()
      modifies this
      ensures Valid()
      ensures upload.None? <==> old(currentFile).None? || old(prompt) == ""
      ensures upload.Some? ==> upload.value == Upload(old(currentFile).value, old(prompt))
      ensures upload.Some? ==> stage == Processing && isProcessing
      ensures upload.None? ==> stage == old(stage) && isProcessing == old(isProcessing)
      ensures Position() == old(Position()) && prompt == old(prompt)
      ensures attachedImage == old(attachedImage) && currentFile == old(currentFile)
      ensures originalImage == old(originalImage)
    {
      if currentFile.None? || prompt == "" {
        return None;
      }
      isProcessing := true;
      stage := Processing;
      upload := Some(Upload(currentFile.value, prompt));
    }

    /**
     * `processImage` after the response. An edited image becomes the new last
     * history entry after the cursor, is shown and becomes the current file,
     * and the prompt is cleared; a non-ok response or a thrown error leaves
     * the history, the cursor and the prompt alone. Either way processing ends
     * and the stage returns to attached.
     */
    method CompleteProcessing(reply: EditReply)
      requires Valid() && stage == Processing
      modifies this
      ensures Valid()
      ensures stage == Attached && !isProcessing
      ensures originalImage == old(originalImage)
      ensures reply.EditedImage? ==>
                var item := HistoryItem(reply.imageUrl, ProcessedFile(reply.bytes));
                && Position() == Commit(old(Position()), item)
                && imageHistory == old(imageHistory)[..old(historyIndex) + 1] + [item]
                && historyIndex == old(historyIndex) + 1 == |imageHistory| - 1
                && attachedImage == Some(reply.imageUrl) && currentFile == Some(item.file)
                && prompt == ""
      ensures !reply.EditedImage? ==>
                && Position() == old(Position())
                && attachedImage == old(attachedImage) && currentFile == old(currentFile)
                && prompt == old(prompt)
    {
      if !reply.EditedImage? {
        isProcessing := false;
        stage := Attached;
        return;
      }
      var processedImageUrl := reply.imageUrl;
      var processedFile := ProcessedFile(reply.bytes);
      var item := HistoryItem(processedImageUrl, processedFile);
      CommitAppendsAfterCursor(Position(), item);
      imageHistory := Slice(imageHistory, 0, historyIndex + 1) + [item];
      historyIndex := historyIndex + 1;
      attachedImage := Some(processedImageUrl);
      currentFile := Some(processedFile);
      prompt := "";
      isProcessing := false;
      stage := Attached;
    }

    /** `processImage` as one step: the request, then the handling of its reply. */
    method ProcessImage(reply: EditReply) returns (upload: Option<Upload>)
      requires Valid()
      modifies this
      ensures Valid()
      ensures upload.None? <==> old(currentFile).None? || old(prompt) == ""
      ensures upload.None? ==>
                && Position() == old(Position()) && stage == old(stage) && isProcessing == old(isProcessing)
                && attachedImage == old(attachedImage) && currentFile == old(currentFile) && prompt == old(prompt)
      ensures upload.Some? ==> upload.value == Upload(old(currentFile).value, old(prompt))
      ensures upload.Some? ==> stage == Attached && !isProcessing
      ensures upload.Some? && reply.EditedImage? ==>
                var item := HistoryItem(reply.imageUrl, ProcessedFile(reply.bytes));
                && Position() == Commit(old(Position()), item)
                && attachedImage == Some(reply.imageUrl) && currentFile == Some(item.file) && prompt == ""
      ensures upload.Some? && !reply.EditedImage? ==>
                && Position() == old(Position())
                && attachedImage == old(attachedImage) && currentFile == old(currentFile) && prompt == old(prompt)
      ensures originalImage == old(originalImage)
    {
      upload := BeginProcessing();
      if upload.Some? {
        CompleteProcessing(reply);
      }
    }

    /** `handleUndo`: when there is an earlier image, step back to it and show it. */
    method HandleUndo()
      requires Valid()
      modifies this
      ensures Valid()
      ensures Position() == Undo(old(Position()))
      ensures imageHistory == old(imageHistory)
      ensures old(historyIndex) > 0 ==>
                && historyIndex == old(historyIndex) - 1
                && attachedImage == Some(imageHistory[historyIndex].imageUrl)
                && currentFile == Some(imageHistory[historyIndex].file)
      ensures old(historyIndex) <= 0 ==>
                historyIndex == old(historyIndex) && attachedImage == old(attachedImage) && currentFile == old(currentFile)
      ensures stage == old(stage) && isProcessing == old(isProcessing) && prompt == old(prompt)
      ensures originalImage == old(originalImage)
    {
      if historyIndex > 0 {
        var newIndex := historyIndex - 1;
        var previousImage := imageHistory[newIndex];
        historyIndex := newIndex;
        attachedImage := Some(previousImage.imageUrl);
        currentFile := Some(previousImage.file);
      }
    }

    /** `handleRedo`: when there is a later image, step forward to it and show it. */
    method HandleRedo()
      requires Valid()
      modifies this
      ensures Valid()
      ensures Position() == Redo(old(Position()))
      ensures imageHistory == old(imageHistory)
      ensures old(historyIndex) < |old(imageHistory)| - 1 ==>
                && historyIndex == old(historyIndex) + 1
                && attachedImage == Some(imageHistory[historyIndex].imageUrl)
                && currentFile == Some(imageHistory[historyIndex].file)
      ensures old(historyIndex) >= |old(imageHistory)| - 1 ==>
                historyIndex == old(historyIndex) && attachedImage == old(attachedImage) && currentFile == old(currentFile)
      ensures stage == old(stage) && isProcessing == old(isProcessing) && prompt == old(prompt)
      ensures originalImage == old(originalImage)
    {
      if historyIndex < |imageHistory| - 1 {
        var newIndex := historyIndex + 1;
        var nextImage := imageHistory[newIndex];
        historyIndex := newIndex;
        attachedImage := Some(nextImage.imageUrl);
        currentFile := Some(nextImage.file);
      }
    }
  }

  /** Undo, when enabled, followed by redo restores the cursor and what is shown. */
  method UndoThenRedoRestores(home: Home)
    requires home.Valid() && home.historyIndex > 0
    modifies home
    ensures home.Valid()
    ensures home.Position() == old(home.Position())
    ensures home.attachedImage == old(home.attachedImage) && home.currentFile == old(home.currentFile)
  {
    home.HandleUndo();
    home.HandleRedo();
  }

  /** After a successful edit, undo shows the image the edit started from. */
  method UndoAfterEdit(home: Home, reply: EditReply) returns (upload: Option<Upload>)
    requires home.Valid() && reply.EditedImage?
    modifies home
    ensures home.Valid()
    ensures upload.Some? ==> home.attachedImage == old(home.attachedImage) && home.currentFile == old(home.currentFile)
    ensures upload.Some? ==> home.historyIndex == old(home.historyIndex) && CanRedo(home.Position())
  {
    ghost var before := home.Position();
    upload := home.ProcessImage(reply);
    if upload.Some? {
      CommitAppendsAfterCursor(before, HistoryItem(reply.imageUrl, ProcessedFile(reply.bytes)));
      home.HandleUndo();
    }
  }
}
