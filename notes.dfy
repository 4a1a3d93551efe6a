/**
 * The notes logs the workflows keep on assignments, maintenance requests and liquidation
 * requests: each step may add one tagged line ("[STARTED] ...", "[REJECTED] ...") at the end.
 */
module Notes {
  import opened Wrappers
  import opened Text

  predicate EndsWith(s: string, suffix: string) {
    |suffix| <= |s| && s[|s| - |suffix|..] == suffix
  }

  predicate StartsWith(s: string, prefix: string) {
    |prefix| <= |s| && s[..|prefix|] == prefix
  }

  /**
   * The maintenance pattern (assign technician, start, complete): with non-empty text the
   * entry "{tag} {text}" is added, on a new line unless the notes are null or empty; with no
   * text the notes are kept.
   */
  function WorkLog(notes: Option<string>, tag: string, text: Option<string>): (r: Option<string>)
    ensures IsNullOrEmpty(text) ==> r == notes
    ensures !IsNullOrEmpty(text) ==> r.Some? && EndsWith(r.value, Entry(tag, text.value))
    ensures !IsNullOrEmpty(text) && !IsNullOrEmpty(notes) ==> StartsWith(r.value, notes.value + "\n")
    ensures !IsNullOrEmpty(text) && IsNullOrEmpty(notes) ==> r == Some(Entry(tag, text.value))
    ensures !IsNullOrEmpty(text) && !IsNullOrEmpty(notes) ==> r == Some(notes.value + "\n" + Entry(tag, text.value))
  {
    if IsNullOrEmpty(text) then notes
    else
      var line := Entry(tag, text.value);
      AppendLineKeepsHistory(notes, line, IsNullOrEmpty(notes));
      Some(AppendLine(notes, line, IsNullOrEmpty(notes)))
  }

  /**
   * The return pattern: a non-empty return note is always added after a line break, even to
   * null notes, which then render as "".
   */
  function ReturnLog(notes: Option<string>, returnNotes: Option<string>): (r: Option<string>)
    ensures IsNullOrEmpty(returnNotes) ==> r == notes
    ensures !IsNullOrEmpty(returnNotes) ==>
      (r.Some? && StartsWith(r.value, Render(notes) + "\n") && EndsWith(r.value, Entry("[RETURN]", returnNotes.value)))
    ensures !IsNullOrEmpty(returnNotes) ==> r == Some(Render(notes) + "\n" + Entry("[RETURN]", returnNotes.value))
  {
    if IsNullOrEmpty(returnNotes) then notes
    else
      var line := Entry("[RETURN]", returnNotes.value);
      AppendLineKeepsHistory(notes, line, false);
      Some(AppendLine(notes, line, false))
  }

  /**
   * The cancellation pattern: the entry "[CANCELLED] {reason}" is always added, even for an
   * empty reason.
   */
  function CancelLog(notes: Option<string>, reason: string): (r: string)
    ensures EndsWith(r, Entry("[CANCELLED]", reason))
    ensures !IsNullOrEmpty(notes) ==> StartsWith(r, notes.value + "\n")
    ensures IsNullOrEmpty(notes) ==> r == Entry("[CANCELLED]", reason)
    ensures !IsNullOrEmpty(notes) ==> r == notes.value + "\n" + Entry("[CANCELLED]", reason)
  {
    var line := Entry("[CANCELLED]", reason);
    AppendLineKeepsHistory(notes, line, IsNullOrEmpty(notes));
    AppendLine(notes, line, IsNullOrEmpty(notes))
  }

  /**
   * The liquidation pattern: a line break only after a note that is not blank, so a
   * white-space-only note is replaced.
   */
  function DecisionLog(note: Option<string>, line: string): (r: string)
    ensures EndsWith(r, line)
    ensures !IsNullOrWhiteSpace(note) ==> StartsWith(r, note.value + "\n")
    ensures IsNullOrWhiteSpace(note) ==> r == line
    ensures !IsNullOrWhiteSpace(note) ==> r == note.value + "\n" + line
  {
    AppendLineKeepsHistory(note, line, IsNullOrWhiteSpace(note));
    AppendLine(note, line, IsNullOrWhiteSpace(note))
  }

  /** The approval line: "[APPROVED] {notes}", or "[APPROVED]" alone when the notes are blank. */
  function ApprovalLine(approvalNotes: Option<string>): (r: string)
    ensures StartsWith(r, "[APPROVED]")
    ensures IsNullOrWhiteSpace(approvalNotes) <==> r == "[APPROVED]"
    ensures !IsNullOrWhiteSpace(approvalNotes) ==> r[|"[APPROVED] "|..] == approvalNotes.value
  {
    if IsNullOrWhiteSpace(approvalNotes) then "[APPROVED]" else Entry("[APPROVED]", approvalNotes.value)
  }
}
