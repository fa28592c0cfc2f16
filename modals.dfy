/** The new-group dialog (components/modals/NewGroupModal.tsx): a name field
    and a Save button enabled by it. */
module NewGroupModal {
  import opened Text

  class Modal {
    var name: string
    var saveEnabled: bool

    constructor ()
      ensures name == "" && !saveEnabled
    {
      name, saveEnabled := "", false;
    }

    /** `handleGroupNameChange` with `updateSaveEnabled`: the name becomes
        `value`, and Save is enabled exactly when `value` has text. */
    method ChangeName(value: string)
      modifies this
      ensures name == value
      ensures saveEnabled == HasText(value)
    {
      name := value;
      saveEnabled := HasText(value);
    }

    /** `handleNewGroup`: hands the current name to `onSubmit` and clears the
        field; Save keeps its state. */
    method Submit() returns (submitted: string)
      modifies this
      ensures submitted == old(name)
      ensures name == "" && saveEnabled == old(saveEnabled)
    {
      submitted := name;
      name := "";
    }
  }

  /** Typing a name and submitting it: the name is submitted, the field is
      cleared, and Save stays as the typed name left it, even with the field
      now empty. */
  method TypeThenSubmit(value: string) returns (submitted: string, field: string, save: bool)
    ensures submitted == value && field == ""
    ensures save <==> exists i :: 0 <= i < |value| && !IsWhitespace(value[i])
  {
    var modal := new Modal();
    modal.ChangeName(value);
    submitted := modal.Submit();
    field, save := modal.name, modal.saveEnabled;
    HasTextIffNonWhitespace(value);
  }

  /** Clearing the field disables Save again. */
  method TypeThenClear(value: string) returns (field: string, save: bool)
    ensures field == "" && !save
  {
    var modal := new Modal();
    modal.ChangeName(value);
    modal.ChangeName("");
    field, save := modal.name, modal.saveEnabled;
  }
}

/** The new-board dialog (components/modals/NewBoardModal.tsx): the same
    form, except that its change handler judges the name the field held
    before the change. */
module NewBoardModal {
  import opened Text

  class Modal {
    var name: string
    var saveEnabled: bool

    constructor ()
      ensures name == "" && !saveEnabled
    {
      name, saveEnabled := "", false;
    }

    /** `handleBoardNameChange` as written: the name becomes `value`, but
        Save is computed from the name held before this change. */
    method ChangeName(value: string)
      modifies this
      ensures name == value
      ensures saveEnabled == HasText(old(name))
    {
      var previous := name;
      name := value;
      saveEnabled := HasText(previous);
    }

    /** The change handler as evidently intended, and as the new-group
        dialog has it: Save follows the new name. */
    method ChangeNameIntended(value: string)
      modifies this
      ensures name == value
      ensures saveEnabled == HasText(value)
    {
      name := value;
      saveEnabled := HasText(value);
    }

    /** `handleNewBoard`: hands the current name to `onSubmit` and clears the
        field; Save keeps its state. */
    method Submit() returns (submitted: string)
      modifies this
      ensures submitted == old(name)
      ensures name == "" && saveEnabled == old(saveEnabled)
    {
      submitted := name;
      name := "";
    }
  }

  /** As written, the first name typed into the empty field never enables
      Save, and clearing the field afterwards enables it with nothing to
      save: typing "a" then deleting it shows an empty name beside an
      enabled Save. */
  method TypeThenClear(value: string) returns (afterTyping: bool, field: string, afterClearing: bool)
    ensures !afterTyping
    ensures field == "" && (afterClearing <==> HasText(value))
  {
    var modal := new Modal();
    modal.ChangeName(value);
    afterTyping := modal.saveEnabled;
    modal.ChangeName("");
    field, afterClearing := modal.name, modal.saveEnabled;
  }

  /** With the intended handler Save follows the field: enabled after a
      name with text is typed, disabled once the field is cleared. */
  method TypeThenClearIntended(value: string) returns (afterTyping: bool, field: string, afterClearing: bool)
    ensures afterTyping <==> HasText(value)
    ensures field == "" && !afterClearing
  {
    var modal := new Modal();
    modal.ChangeNameIntended(value);
    afterTyping := modal.saveEnabled;
    modal.ChangeNameIntended("");
    field, afterClearing := modal.name, modal.saveEnabled;
  }

  /** Typing a name and submitting it: the name is submitted and the field
      cleared. */
  method TypeThenSubmit(value: string) returns (submitted: string, field: string)
    ensures submitted == value && field == ""
  {
    var modal := new Modal();
    modal.ChangeName(value);
    submitted := modal.Submit();
    field := modal.name;
  }
}
