/** The row display and the edit state machine of components/dashboard/PasswordTable.tsx. */
module PasswordTable {
  import opened Wrappers
  import Dashboard

  /** Eight bullets. */
  const MASK: string := "\U{2022}\U{2022}\U{2022}\U{2022}\U{2022}\U{2022}\U{2022}\U{2022}"
  const DECRYPTING: string := "Decrypting..."

  /** `displayPassword` for the row of `id`: the mask while hidden, the cached plaintext when
      visible, "Decrypting..." when visible but nothing is cached yet. */
  function DisplayPassword(visible: map<string, bool>, decrypted: map<string, string>, id: string): (r: string)
    ensures !Dashboard.Visible(visible, id) ==> r == MASK
    ensures Dashboard.Visible(visible, id) && Dashboard.Cached(decrypted, id) ==> r == decrypted[id]
    ensures Dashboard.Visible(visible, id) && !Dashboard.Cached(decrypted, id) ==> r == DECRYPTING
  {
    if !(id in visible && visible[id]) then MASK
    else if id in decrypted && decrypted[id] != "" then decrypted[id]
    else DECRYPTING
  }

  /** What the copy button copies: the cached plaintext, or else the stored (encrypted) password. */
  function CopyText(decrypted: map<string, string>, entry: Dashboard.Entry): (r: string)
    ensures Dashboard.Cached(decrypted, entry.id) ==> r == decrypted[entry.id]
    ensures !Dashboard.Cached(decrypted, entry.id) ==> r == entry.password
  {
    if entry.id in decrypted && decrypted[entry.id] != "" then decrypted[entry.id] else entry.password
  }

  /** The row being edited. */
  datatype Draft = Draft(website: string, username: string, password: string)

  datatype DraftField = Website | Username | Password

  /** What the decrypt request of `startEditing` gave: it threw, the status was not ok, or the plaintext. */
  datatype EditDecryptReply = EditThrew | EditNotOk | EditOk(password: string)

  /** `{ ...prev, [field]: value }`. */
  function WithDraftField(d: Draft, field: DraftField, value: string): Draft
  {
    match field
    case Website => d.(website := value)
    case Username => d.(username := value)
    case Password => d.(password := value)
  }

  class EditState {
    var editingId: Option<string>
    var editedEntry: Option<Draft>
    var isSaving: bool

    constructor ()
      ensures editingId == None && editedEntry == None && !isSaving
    {
      editingId, editedEntry, isSaving := None, None, false;
    }

    /** `startEditing`: only a successful decrypt enters edit mode, with the row's website and username
        and the decrypted password; an entry without an id sets the draft but not `editingId`. */
    method StartEditing(entry: Dashboard.Entry, reply: EditDecryptReply) returns (alerted: bool)
      modifies this
      ensures alerted <==> !reply.EditOk?
      ensures alerted ==> editingId == old(editingId) && editedEntry == old(editedEntry)
      ensures !alerted ==>
        && editedEntry == Some(Draft(entry.website, entry.username, reply.password))
        && editingId == if entry.id != "" then Some(entry.id) else old(editingId)
      ensures isSaving == old(isSaving)
    {
      if !reply.EditOk? {
        return true;
      }
      if entry.id != "" {
        editingId := Some(entry.id);
      }
      editedEntry := Some(Draft(entry.website, entry.username, reply.password));
      alerted := false;
    }

    /** `cancelEditing`. */
    method CancelEditing()
      modifies this
      ensures editingId == None && editedEntry == None
      ensures isSaving == old(isSaving)
    {
      editingId, editedEntry := None, None;
    }

    /** `handleSave`, with `saved` whether the parent's `saveEntry` resolved: nothing happens without
        an id and a draft; otherwise edit mode ends only on success, and `isSaving` ends false either way. */
    method HandleSave(saved: bool) returns (attempted: bool)
      modifies this
      ensures attempted <==> (old(editingId).Some? && old(editingId).value != "" && old(editedEntry).Some?)
      ensures !attempted ==>
        editingId == old(editingId) && editedEntry == old(editedEntry) && isSaving == old(isSaving)
      ensures attempted ==> !isSaving
      ensures attempted && saved ==> editingId == None && editedEntry == None
      ensures attempted && !saved ==> editingId == old(editingId) && editedEntry == old(editedEntry)
    {
      if editingId.None? || editingId.value == "" || editedEntry.None? {
        return false;
      }
      isSaving := true;
      if saved {
        CancelEditing();
      }
      isSaving := false;
      attempted := true;
    }

    /** `handleFieldChange`: only the named field of the draft changes; no draft stays no draft. */
    method HandleFieldChange(field: DraftField, value: string)
      modifies this
      ensures editedEntry == if old(editedEntry).Some? then Some(WithDraftField(old(editedEntry).value, field, value)) else None
      ensures editingId == old(editingId) && isSaving == old(isSaving)
    {
      if editedEntry.Some? {
        editedEntry := Some(WithDraftField(editedEntry.value, field, value));
      }
    }
  }
}
