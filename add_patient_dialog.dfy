/** The walk-in dialog: a name must be non-blank, and what reaches the
    queue is the trimmed name. */
module AddPatientDialog {
  import opened Types
  import opened Text

  /** The name `handleSubmit` passes on, or None when it is blank. */
  function WalkInName(name: string): (r: Option<string>)
    ensures r.None? <==> IsBlank(name)
    ensures r.Some? ==> r.value != [] && !IsWhitespace(r.value[0]) && !IsWhitespace(r.value[|r.value| - 1])
    ensures r.Some? ==> r.value == Trim(name)
    ensures r.Some? ==> exists i :: TrimmedAt(name, r.value, i)
  {
    if IsBlank(name) then None else Some(Trim(name))
  }

  /** Submitting the accepted name again accepts it unchanged. */
  lemma WalkInNameStable(name: string)
    requires WalkInName(name).Some?
    ensures WalkInName(WalkInName(name).value) == WalkInName(name)
  {
    TrimIdempotent(name);
  }

  datatype Toast = Toast(title: string, description: string, destructive: bool)

  const EmptyNameError := Toast("Error", "Patient name cannot be empty.", true)

  function AddedToast(name: string): Toast {
    Toast("Patient Added", name + " has been added to the queue.", false)
  }

  class Dialog {
    var isOpen: bool
    var name: string

    constructor (open: bool)
      ensures isOpen == open && name == ""
    {
      isOpen, name := open, "";
    }

    method Type(typed: string)
      modifies this
      ensures name == typed && isOpen == old(isOpen)
    {
      name := typed;
    }

    /** `handleSubmit`: a non-blank name is passed on trimmed and named in the
        confirmation, and the form empties and closes; a blank one raises
        the error and leaves the dialog as it was. */
    method HandleSubmit() returns (added: Option<string>, toast: Toast)
      modifies this
      ensures added == WalkInName(old(name))
      ensures added.Some? ==> toast == AddedToast(added.value) && name == "" && !isOpen
      ensures added.None? ==> toast == EmptyNameError && name == old(name) && isOpen == old(isOpen)
    {
      added := WalkInName(name);
      if added.Some? {
        toast := AddedToast(added.value);
        name, isOpen := "", false;
      } else {
        toast := EmptyNameError;
      }
    }
  }
}
