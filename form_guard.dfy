/**
 * The event-driven part of the upload form's guard. The fields of Guard stand
 * for the page state the handlers write: the dropzone's is-invalid and
 * is-dragover classes, the filename label and its ARIA attributes, the file
 * input's selection and custom validity message, the module-level drag counter
 * and the submit button. Timers are not scheduled: the environment calls
 * RestoreTimeout and ResetTick when they would fire.
 */
module FormGuard {
  import opened Validation

  const PLACEHOLDER: string := "Nenhum arquivo selecionado"

  const SENDING_TEXT: string := "Enviando…"

  /** Politeness level of the label's aria-live attribute. */
  datatype Politeness = Polite | Assertive

  /** Label text for a selected file: its name, a bullet and its formatted size. */
  function FileLabel(f: FileInfo, format: nat -> string): (s: string)
    ensures |s| == |f.name| + 3 + |format(f.size)|
    ensures s[..|f.name|] == f.name
    ensures s[|f.name|..|f.name| + 3] == " • "
    ensures s[|f.name| + 3..] == format(f.size)
  {
    f.name + " • " + format(f.size)
  }

  class Guard {
    /** Stands for formatBytes, which the model keeps abstract. */
    const format: nat -> string

    /** The file input's current first file. */
    var inputFile: Option<FileInfo>
    /** The input's custom validity message ("" when none). */
    var customValidity: string
    /** The dropzone has the is-invalid class. */
    var invalid: bool
    /** The filename label's text. */
    var labelText: string
    /** The label carries role="alert". */
    var roleAlert: bool
    /** The label's aria-live value. */
    var live: Politeness
    /** Nesting depth of drag events over the dropzone. */
    var dragCounter: int
    /** The dropzone has the is-dragover class. */
    var dragActive: bool
    var btnDisabled: bool
    var btnText: string

    /**
     * What every handler keeps: the drag counter is never negative and the
     * drag style is shown exactly while it is positive; the error state is
     * shown consistently on dropzone, label and input; and a file that stays
     * selected is a valid one, labelled with its name and size.
     */
    ghost predicate Valid()
      reads this
    {
      && dragCounter >= 0
      && dragActive == (dragCounter > 0)
      && (invalid <==> customValidity != "")
      && (invalid ==> labelText == customValidity)
      && roleAlert == invalid
      && live == (if invalid then Assertive else Polite)
      && (inputFile.Some? ==> IsValid(inputFile) && !invalid && labelText == FileLabel(inputFile.value, format))
    }

    /** The page as loaded: nothing selected, no error, no drag in progress, the button enabled. */
    constructor (format: nat -> string, initialLabel: string, initialButtonText: string)
      ensures Valid()
      ensures this.format == format
      ensures inputFile == None && !invalid && customValidity == "" && labelText == initialLabel
      ensures dragCounter == 0 && !dragActive
      ensures !btnDisabled && btnText == initialButtonText
    {
      this.format := format;
      inputFile := None;
      customValidity := "";
      invalid := false;
      labelText := initialLabel;
      roleAlert := false;
      live := Polite;
      dragCounter := 0;
      dragActive := false;
      btnDisabled := false;
      btnText := initialButtonText;
    }

    /** setError: shows msg on the label and as the input's validity message. */
    method SetError(msg: string)
      modifies this
      ensures invalid && labelText == msg && customValidity == msg && roleAlert && live == Assertive
      ensures inputFile == old(inputFile)
      ensures dragCounter == old(dragCounter) && dragActive == old(dragActive)
      ensures btnDisabled == old(btnDisabled) && btnText == old(btnText)
    {
      invalid := true;
      labelText := msg;
      roleAlert := true;
      live := Assertive;
      customValidity := msg;
    }

    /** clearError: removes the error state; the label text is left as it is. */
    method ClearError()
      modifies this
      ensures !invalid && customValidity == "" && !roleAlert && live == Polite
      ensures labelText == old(labelText) && inputFile == old(inputFile)
      ensures dragCounter == old(dragCounter) && dragActive == old(dragActive)
      ensures btnDisabled == old(btnDisabled) && btnText == old(btnText)
    {
      invalid := false;
      roleAlert := false;
      live := Polite;
      customValidity := "";
    }

    /** updateFileUI: the label names the file and its size, or shows the placeholder. */
    method UpdateFileUI(f: Option<FileInfo>)
      modifies this
      ensures labelText == (if f.Some? then FileLabel(f.value, format) else PLACEHOLDER)
      ensures inputFile == old(inputFile) && customValidity == old(customValidity)
      ensures invalid == old(invalid) && roleAlert == old(roleAlert) && live == old(live)
      ensures dragCounter == old(dragCounter) && dragActive == old(dragActive)
      ensures btnDisabled == old(btnDisabled) && btnText == old(btnText)
    {
      match f
      case Some(file) => labelText := FileLabel(file, format);
      case None => labelText := PLACEHOLDER;
    }

    /**
     * validateCurrentFile: the result is IsValid of the current file. On
     * success the error state is cleared; on failure with showErrors the
     * message of the first failing rule is shown; otherwise nothing changes.
     */
    method ValidateCurrentFile(showErrors: bool) returns (ok: bool)
      modifies this
      ensures ok == IsValid(inputFile)
      ensures ok ==> !invalid && customValidity == "" && !roleAlert && live == Polite && labelText == old(labelText)
      ensures !ok && showErrors ==>
        var msg := ErrorMessage(inputFile, format);
        invalid && labelText == msg && customValidity == msg && roleAlert && live == Assertive
      ensures !ok && !showErrors ==>
        invalid == old(invalid) && labelText == old(labelText) && customValidity == old(customValidity) &&
        roleAlert == old(roleAlert) && live == old(live)
      ensures inputFile == old(inputFile)
      ensures dragCounter == old(dragCounter) && dragActive == old(dragActive)
      ensures btnDisabled == old(btnDisabled) && btnText == old(btnText)
    {
      var outcome := Validate(inputFile);
      if outcome == Ok {
        ClearError();
        ok := true;
      } else {
        if showErrors {
          SetError(ErrorMessage(inputFile, format));
        }
        ok := false;
      }
    }

    /**
     * The change handler, called once the browser has put `selected` into the
     * input. A valid file stays selected and is labelled with its name and
     * size; an invalid one is shown as an error and the input is emptied.
     */
    method Change(selected: Option<FileInfo>)
      requires Valid()
      modifies this
      ensures Valid()
      ensures IsValid(selected) ==>
        inputFile == selected && !invalid && labelText == FileLabel(selected.value, format)
      ensures !IsValid(selected) ==>
        inputFile == None && invalid && labelText == ErrorMessage(selected, format) &&
        customValidity == ErrorMessage(selected, format)
      ensures dragCounter == old(dragCounter) && dragActive == old(dragActive)
      ensures btnDisabled == old(btnDisabled) && btnText == old(btnText)
    {
      inputFile := selected;
      UpdateFileUI(selected);
      var ok := ValidateCurrentFile(true);
      if !ok {
        inputFile := None;
      }
    }

    /** The dragenter handler: one level deeper, drag style on. */
    method DragEnter()
      requires Valid()
      modifies this
      ensures Valid()
      ensures dragCounter == old(dragCounter) + 1 && dragActive
      ensures inputFile == old(inputFile) && labelText == old(labelText) && invalid == old(invalid)
      ensures customValidity == old(customValidity) && roleAlert == old(roleAlert) && live == old(live)
      ensures btnDisabled == old(btnDisabled) && btnText == old(btnText)
    {
      dragCounter := dragCounter + 1;
      dragActive := true;
    }

    /** The dragover handler is the same listener as dragenter. */
    method DragOver()
      requires Valid()
      modifies this
      ensures Valid()
      ensures dragCounter == old(dragCounter) + 1 && dragActive
      ensures inputFile == old(inputFile) && labelText == old(labelText) && invalid == old(invalid)
      ensures customValidity == old(customValidity) && roleAlert == old(roleAlert) && live == old(live)
      ensures btnDisabled == old(btnDisabled) && btnText == old(btnText)
    {
      DragEnter();
    }

    /**
     * The dragleave handler: one level shallower, never below zero; the drag
     * style goes off when the counter reaches zero and is otherwise kept.
     */
    method DragLeave()
      requires Valid()
      modifies this
      ensures Valid()
      ensures dragCounter == if old(dragCounter) > 0 then old(dragCounter) - 1 else 0
      ensures dragActive == if dragCounter == 0 then false else old(dragActive)
      ensures inputFile == old(inputFile) && labelText == old(labelText) && invalid == old(invalid)
      ensures customValidity == old(customValidity) && roleAlert == old(roleAlert) && live == old(live)
      ensures btnDisabled == old(btnDisabled) && btnText == old(btnText)
    {
      dragCounter := if dragCounter - 1 > 0 then dragCounter - 1 else 0;
      if dragCounter == 0 {
        dragActive := false;
      }
    }

    /** The drop handler is the same listener as dragleave. */
    method Drop()
      requires Valid()
      modifies this
      ensures Valid()
      ensures dragCounter == if old(dragCounter) > 0 then old(dragCounter) - 1 else 0
      ensures dragActive == if dragCounter == 0 then false else old(dragActive)
      ensures inputFile == old(inputFile) && labelText == old(labelText) && invalid == old(invalid)
      ensures customValidity == old(customValidity) && roleAlert == old(roleAlert) && live == old(live)
      ensures btnDisabled == old(btnDisabled) && btnText == old(btnText)
    {
      DragLeave();
    }

    /**
     * The submit handler. An invalid file cancels submission, shows the error
     * and leaves the button alone. A valid one disables the button, shows the
     * sending text, and hands back the previous text for the restoring timer.
     */
    method Submit() returns (prevented: bool, original: string)
      requires Valid()
      modifies this
      ensures Valid()
      ensures prevented == !IsValid(old(inputFile))
      ensures prevented <==> old(inputFile).None?
      ensures prevented ==>
        invalid && labelText == ErrorMessage(inputFile, format) &&
        btnDisabled == old(btnDisabled) && btnText == old(btnText)
      ensures !prevented ==>
        !invalid && labelText == old(labelText) &&
        btnDisabled && btnText == SENDING_TEXT && original == old(btnText)
      ensures inputFile == old(inputFile)
      ensures dragCounter == old(dragCounter) && dragActive == old(dragActive)
    {
      var ok := ValidateCurrentFile(true);
      if !ok {
        prevented, original := true, btnText;
        return;
      }
      prevented := false;
      btnDisabled := true;
      original := btnText;
      btnText := SENDING_TEXT;
    }

    /**
     * The 10-second timer scheduled by a successful submit: the button is
     * restored to `original` only if the page is visible when it fires.
     */
    method RestoreTimeout(visible: bool, original: string)
      requires Valid()
      modifies this
      ensures Valid()
      ensures visible ==> !btnDisabled && btnText == original
      ensures !visible ==> btnDisabled == old(btnDisabled) && btnText == old(btnText)
      ensures inputFile == old(inputFile) && labelText == old(labelText) && invalid == old(invalid)
      ensures customValidity == old(customValidity) && roleAlert == old(roleAlert) && live == old(live)
      ensures dragCounter == old(dragCounter) && dragActive == old(dragActive)
    {
      if visible {
        btnDisabled := false;
        btnText := original;
      }
    }

    /**
     * The next-tick callback scheduled by the reset handler: empties the input,
     * clears the error state and shows the placeholder.
     */
    method ResetTick()
      requires Valid()
      modifies this
      ensures Valid()
      ensures inputFile == None && labelText == PLACEHOLDER
      ensures !invalid && customValidity == "" && !roleAlert && live == Polite
      ensures dragCounter == old(dragCounter) && dragActive == old(dragActive)
      ensures btnDisabled == old(btnDisabled) && btnText == old(btnText)
    {
      inputFile := None;
      ClearError();
      UpdateFileUI(None);
    }
  }

  // ---------- Scenarios over the handlers ----------

  /** Submitting a valid file and letting the timer fire on a visible page restores the button exactly. */
  method SubmitThenRestore(format: nat -> string, f: FileInfo, initialLabel: string, buttonText: string)
    returns (prevented: bool, disabled: bool, text: string)
    requires IsValid(Some(f))
    ensures !prevented && !disabled && text == buttonText
  {
    var g := new Guard(format, initialLabel, buttonText);
    g.Change(Some(f));
    var original;
    prevented, original := g.Submit();
    g.RestoreTimeout(true, original);
    disabled, text := g.btnDisabled, g.btnText;
  }

  /** Submitting with nothing selected is prevented and shows the "select a file" message. */
  method SubmitWithoutFile(format: nat -> string, initialLabel: string, buttonText: string)
    returns (prevented: bool, shown: string, disabled: bool)
    ensures prevented && shown == NO_FILE_MESSAGE && !disabled
  {
    var g := new Guard(format, initialLabel, buttonText);
    var original;
    prevented, original := g.Submit();
    shown, disabled := g.labelText, g.btnDisabled;
  }

  /**
   * An invalid selection never stays in the input, so a later submit is
   * prevented, and the button is untouched.
   */
  method InvalidChangeThenSubmit(format: nat -> string, f: Option<FileInfo>, initialLabel: string, buttonText: string)
    returns (kept: Option<FileInfo>, prevented: bool, disabled: bool)
    requires !IsValid(f)
    ensures kept == None && prevented && !disabled
  {
    var g := new Guard(format, initialLabel, buttonText);
    g.Change(f);
    kept := g.inputFile;
    var original;
    prevented, original := g.Submit();
    disabled := g.btnDisabled;
  }

  /**
   * Two submits before either timer fires: each timer restores the text it
   * captured, and the second one captured the sending text, so the button
   * ends enabled but still reading the sending text.
   */
  method DoubleSubmitRace(format: nat -> string, f: FileInfo, initialLabel: string, buttonText: string)
    returns (disabled: bool, text: string)
    requires IsValid(Some(f))
    ensures !disabled && text == SENDING_TEXT
  {
    var g := new Guard(format, initialLabel, buttonText);
    g.Change(Some(f));
    var p1, first := g.Submit();
    var p2, second := g.Submit();
    g.RestoreTimeout(true, first);
    g.RestoreTimeout(true, second);
    disabled, text := g.btnDisabled, g.btnText;
  }

  /**
   * Browsers fire dragover repeatedly while a drag hovers, and each firing
   * counts one level deeper; a single dragleave then does not bring the
   * counter back to zero, so the drag style stays on after the drag ends.
   */
  method HoverThenLeave(format: nat -> string, initialLabel: string, buttonText: string)
    returns (counter: int, active: bool)
    ensures counter == 1 && active
  {
    var g := new Guard(format, initialLabel, buttonText);
    g.DragEnter();
    g.DragOver();
    g.DragLeave();
    counter, active := g.dragCounter, g.dragActive;
  }
}
