/**
 * The client state of app/dashboard/page.tsx: the entry list, the search filter, the
 * visibility flags, the cache of decrypted passwords and the list of ids being decrypted,
 * the add form, and the CSV export. Every fetch is replaced by its outcome, passed in. Every
 * handler awaits its fetches and so lets other handlers run meanwhile; only
 * `togglePasswordVisibility` is split at its `await` into the steps before and after it, and
 * each of the others is one step.
 */
module Dashboard {
  import opened Wrappers
  import Seqs
  import Strings

  /** An entry as the page holds it; `id` is `_id`. */
  datatype Entry = Entry(id: string, website: string, username: string, password: string, isEditing: bool)

  datatype Form = Form(website: string, username: string, password: string, showPassword: bool)

  const EMPTY_FORM: Form := Form("", "", "", false)

  /** The `name` of an input of the add form. */
  datatype FormField = WebsiteField | UsernameField | PasswordField

  /** What `fetch('/api/passwords/{id}/decrypt')` gave: it threw, or `res.json()` had this `password`
      ("" where the body had none; every reader of it only asks whether it is truthy). */
  datatype DecryptReply = DecryptThrew | DecryptJson(password: string)

  /** The outcome of `save` as `saveEntry` reports it. */
  datatype SaveOutcome = NotInList | SaveFailed | Saved

  const CSV_HEADER: string := "Website,Username,Password"
  const DECRYPTION_FAILED: string := "DECRYPTION_FAILED"
  const UNKNOWN: string := "UNKNOWN"

  /** `visiblePasswords[id]`, an absent key being falsy. */
  predicate Visible(visible: map<string, bool>, id: string)
  {
    id in visible && visible[id]
  }

  /** `decryptedPasswords[id]` is truthy: present and not empty. */
  predicate Cached(decrypted: map<string, string>, id: string)
  {
    id in decrypted && decrypted[id] != ""
  }

  /** `{ ...form, [name]: value }`. */
  function WithField(form: Form, field: FormField, value: string): Form
  {
    match field
    case WebsiteField => form.(website := value)
    case UsernameField => form.(username := value)
    case PasswordField => form.(password := value)
  }

  /** `data.map((entry) => ({ ...entry, isEditing: false }))`. */
  function NotEditing(data: seq<Entry>): (r: seq<Entry>)
    ensures |r| == |data|
    ensures forall i :: 0 <= i < |data| ==> r[i] == data[i].(isEditing := false)
  {
    seq(|data|, i requires 0 <= i < |data| => data[i].(isEditing := false))
  }

  /** The search predicate, for a term already lower-cased. */
  predicate MatchesTerm(e: Entry, term: string)
  {
    Strings.Includes(Strings.Lower(e.website), term) || Strings.Includes(Strings.Lower(e.username), term)
  }

  /** `filteredEntries`: a blank search shows everything; otherwise the entries whose lower-cased
      website or username contains the lower-cased, untrimmed term, in their original order. */
  function FilteredEntries(entries: seq<Entry>, searchTerm: string): (r: seq<Entry>)
    ensures Strings.Trim(searchTerm) == "" ==> r == entries
    ensures Strings.Trim(searchTerm) != "" ==>
      forall e :: e in r <==> e in entries && MatchesTerm(e, Strings.Lower(searchTerm))
    ensures Strings.Trim(searchTerm) != "" ==>
      forall e :: multiset(r)[e] == if MatchesTerm(e, Strings.Lower(searchTerm)) then multiset(entries)[e] else 0
    ensures Seqs.IsSubsequence(r, entries)
  {
    if Strings.Trim(searchTerm) == "" then
      SubsequenceOfSelf(entries);
      entries
    else
      var term := Strings.Lower(searchTerm);
      var keep := (e: Entry) => MatchesTerm(e, term);
      forall e ensures e in Seqs.Filter(entries, keep) <==> e in entries && MatchesTerm(e, term) {
        Seqs.FilterMembers(entries, keep, e);
      }
      forall e ensures multiset(Seqs.Filter(entries, keep))[e] == if MatchesTerm(e, term) then multiset(entries)[e] else 0 {
        Seqs.FilterCount(entries, keep, e);
      }
      Seqs.Filter(entries, keep)
  }

  lemma {:induction false} SubsequenceOfSelf(s: seq<Entry>)
    ensures Seqs.IsSubsequence(s, s)
  {
    if s != [] {
      SubsequenceOfSelf(s[1..]);
    }
  }

  /** A search made only of white space shows every entry in order. */
  lemma BlankSearchShowsAll(entries: seq<Entry>, searchTerm: string)
    requires forall i :: 0 <= i < |searchTerm| ==> Strings.IsWhiteSpace(searchTerm[i])
    ensures FilteredEntries(entries, searchTerm) == entries
  {
    Strings.TrimEmpty(searchTerm);
  }

  /** The password column of one CSV row: the collected plaintext, or UNKNOWN when it is empty. */
  function PasswordCell(collected: map<string, string>, id: string): (r: string)
    ensures r != ""
  {
    if id in collected && collected[id] != "" then collected[id] else UNKNOWN
  }

  /** One CSV row: each field between double quotes, nothing escaped. */
  function CsvRow(e: Entry, collected: map<string, string>): string
  {
    "\"" + e.website + "\",\"" + e.username + "\",\"" + PasswordCell(collected, e.id) + "\""
  }

  /** The header, then one row per entry in order. */
  function CsvRows(entries: seq<Entry>, collected: map<string, string>): (r: seq<string>)
    ensures |r| == |entries| + 1 && r[0] == CSV_HEADER
    ensures forall i :: 0 <= i < |entries| ==> r[i + 1] == CsvRow(entries[i], collected)
  {
    [CSV_HEADER] + seq(|entries|, i requires 0 <= i < |entries| => CsvRow(entries[i], collected))
  }

  /** What the export loop records for one entry: the cached plaintext, or what the decrypt request gave. */
  function CollectedValue(decrypted: map<string, string>, id: string, reply: DecryptReply): string
  {
    if Cached(decrypted, id) then decrypted[id]
    else match reply
      case DecryptThrew => DECRYPTION_FAILED
      case DecryptJson(p) => p
  }

  /** `decryptedMap` after the export loop has visited `entries` with the given replies. */
  function Collected(entries: seq<Entry>, decrypted: map<string, string>, replies: seq<DecryptReply>): map<string, string>
    requires |replies| == |entries|
  {
    if entries == [] then map[]
    else
      var n := |entries| - 1;
      Collected(entries[..n], decrypted, replies[..n])[entries[n].id := CollectedValue(decrypted, entries[n].id, replies[n])]
  }

  /** With distinct ids, the export map holds for entry `i` what the loop recorded at step `i`. */
  lemma {:induction false} CollectedAt(entries: seq<Entry>, decrypted: map<string, string>, replies: seq<DecryptReply>, i: nat)
    requires |replies| == |entries| && i < |entries|
    requires forall j, k :: 0 <= j < k < |entries| ==> entries[j].id != entries[k].id
    ensures entries[i].id in Collected(entries, decrypted, replies)
    ensures Collected(entries, decrypted, replies)[entries[i].id] == CollectedValue(decrypted, entries[i].id, replies[i])
  {
    var n := |entries| - 1;
    if i < n {
      var front, frontReplies := entries[..n], replies[..n];
      assert front[i] == entries[i] && frontReplies[i] == replies[i];
      assert forall j, k :: 0 <= j < k < |front| ==> front[j].id != front[k].id by {
        forall j, k | 0 <= j < k < |front| ensures front[j].id != front[k].id {
          assert front[j] == entries[j] && front[k] == entries[k];
        }
      }
      CollectedAt(front, decrypted, frontReplies, i);
      assert entries[i].id != entries[n].id;
      assert Collected(entries, decrypted, replies)
        == Collected(front, decrypted, frontReplies)[entries[n].id := CollectedValue(decrypted, entries[n].id, replies[n])];
    }
  }

  /** With distinct ids, the password column of entry `i` is its cached plaintext if there is one,
      DECRYPTION_FAILED if its request threw, UNKNOWN if the reply had no password, and that password otherwise. */
  lemma ExportedPassword(entries: seq<Entry>, decrypted: map<string, string>, replies: seq<DecryptReply>, i: nat)
    requires |replies| == |entries| && i < |entries|
    requires forall j, k :: 0 <= j < k < |entries| ==> entries[j].id != entries[k].id
    ensures PasswordCell(Collected(entries, decrypted, replies), entries[i].id)
      == if Cached(decrypted, entries[i].id) then decrypted[entries[i].id]
         else match replies[i]
           case DecryptThrew => DECRYPTION_FAILED
           case DecryptJson(p) => if p != "" then p else UNKNOWN
  {
    CollectedAt(entries, decrypted, replies, i);
  }

  class DashboardPage {
    var entries: seq<Entry>
    var loading: bool
    var searchTerm: string
    var decrypting: seq<string>
    var decrypted: map<string, string>
    var visible: map<string, bool>
    var form: Form

    constructor ()
      ensures entries == [] && loading && searchTerm == "" && decrypting == []
      ensures decrypted == map[] && visible == map[] && form == EMPTY_FORM
    {
      entries, loading, searchTerm, decrypting := [], true, "", [];
      decrypted, visible, form := map[], map[], EMPTY_FORM;
    }

    /** `fetchEntries`: `data` is None when the request throws or is not ok (an alert is shown). */
    method FetchEntries(data: Option<seq<Entry>>) returns (alerted: bool)
      modifies this
      ensures alerted <==> data.None?
      ensures entries == if data.Some? then NotEditing(data.value) else old(entries)
      ensures !loading
      ensures searchTerm == old(searchTerm) && decrypting == old(decrypting) && decrypted == old(decrypted)
      ensures visible == old(visible) && form == old(form)
    {
      loading := true;
      if data.Some? {
        entries := NotEditing(data.value);
        alerted := false;
      } else {
        alerted := true;
      }
      loading := false;
    }

    /** `togglePasswordVisibility`, up to its `await`: flips the flag and, when nothing is cached,
        marks the id as being decrypted and asks for it (`fetching`). */
    method TogglePasswordVisibility(id: string) returns (fetching: bool)
      modifies this
      ensures visible == old(visible)[id := !Visible(old(visible), id)]
      ensures fetching <==> !Cached(decrypted, id)
      ensures decrypting == if fetching then old(decrypting) + [id] else old(decrypting)
      ensures entries == old(entries) && loading == old(loading) && searchTerm == old(searchTerm)
      ensures decrypted == old(decrypted) && form == old(form)
    {
      visible := visible[id := !Visible(visible, id)];
      fetching := !Cached(decrypted, id);
      if fetching {
        decrypting := decrypting + [id];
      }
    }

    /** The rest of `togglePasswordVisibility` once the decrypt request settles: the reply's password
        is cached, and the id leaves the list of ids being decrypted. */
    method DecryptSettled(id: string, reply: DecryptReply)
      modifies this
      ensures decrypted == if reply.DecryptJson? then old(decrypted)[id := reply.password] else old(decrypted)
      ensures decrypting == Seqs.Filter(old(decrypting), (pid: string) => pid != id)
      ensures id !in decrypting
      ensures forall pid :: pid in decrypting <==> pid in old(decrypting) && pid != id
      ensures entries == old(entries) && loading == old(loading) && searchTerm == old(searchTerm)
      ensures visible == old(visible) && form == old(form)
    {
      if reply.DecryptJson? {
        decrypted := decrypted[id := reply.password];
      }
      var others := (pid: string) => pid != id;
      forall pid ensures pid in Seqs.Filter(decrypting, others) <==> pid in decrypting && pid != id {
        Seqs.FilterMembers(decrypting, others, pid);
      }
      decrypting := Seqs.Filter(decrypting, others);
    }

    /** `handleFormChange`. */
    method HandleFormChange(field: FormField, value: string)
      modifies this
      ensures form == WithField(old(form), field, value)
      ensures entries == old(entries) && loading == old(loading) && searchTerm == old(searchTerm)
      ensures decrypting == old(decrypting) && decrypted == old(decrypted) && visible == old(visible)
    {
      form := WithField(form, field, value);
    }

    /** `addPassword`: `created` is the entry the POST returned (None when it failed), `data` the refresh. */
    method AddPassword(created: Option<Entry>, data: Option<seq<Entry>>) returns (alerted: bool)
      modifies this
      ensures created.None? ==> alerted && entries == old(entries) && form == old(form) && loading == old(loading)
      ensures created.Some? ==>
        && form == EMPTY_FORM && !loading && (alerted <==> data.None?)
        && entries == if data.Some? then NotEditing(data.value) else [created.value.(isEditing := false)] + old(entries)
      ensures searchTerm == old(searchTerm) && decrypting == old(decrypting) && decrypted == old(decrypted)
      ensures visible == old(visible)
    {
      if created.None? {
        return true;
      }
      entries := [created.value.(isEditing := false)] + entries;
      alerted := FetchEntries(data);
      form := EMPTY_FORM;
    }

    /** `deleteEntry`: after confirmation and a successful DELETE, every entry with that id goes. */
    method DeleteEntry(id: string, confirmed: bool, deleted: bool) returns (alerted: bool)
      modifies this
      ensures alerted <==> confirmed && !deleted
      ensures confirmed && deleted ==> entries == Seqs.Filter(old(entries), (e: Entry) => e.id != id)
      ensures confirmed && deleted ==> forall e :: e in entries <==> e in old(entries) && e.id != id
      ensures !(confirmed && deleted) ==> entries == old(entries)
      ensures loading == old(loading) && searchTerm == old(searchTerm) && decrypting == old(decrypting)
      ensures decrypted == old(decrypted) && visible == old(visible) && form == old(form)
    {
      if !confirmed {
        return false;
      }
      if !deleted {
        return true;
      }
      var others := (e: Entry) => e.id != id;
      forall e ensures e in Seqs.Filter(entries, others) <==> e in entries && e.id != id {
        Seqs.FilterMembers(entries, others, e);
      }
      entries := Seqs.Filter(entries, others);
      alerted := false;
    }

    /** `saveEntry`: `updated` says whether the PUT succeeded, `data` is the refresh after it;
        `alerted` is the alert a failed refresh shows. */
    method SaveEntry(id: string, updated: bool, data: Option<seq<Entry>>) returns (outcome: SaveOutcome, alerted: bool)
      modifies this
      ensures alerted <==> outcome == Saved && data.None?
      ensures (forall e :: e in old(entries) ==> e.id != id) ==> outcome == NotInList
      ensures (exists e :: e in old(entries) && e.id == id) ==> outcome == if updated then Saved else SaveFailed
      ensures outcome != Saved ==>
        && entries == old(entries) && decrypted == old(decrypted) && visible == old(visible) && loading == old(loading)
      ensures outcome == Saved ==>
        && decrypted == old(decrypted) - {id}
        && visible == old(visible)[id := false]
        && entries == (if data.Some? then NotEditing(data.value) else old(entries))
        && !loading
      ensures searchTerm == old(searchTerm) && decrypting == old(decrypting) && form == old(form)
    {
      if forall e :: e in entries ==> e.id != id {
        return NotInList, false;
      }
      if !updated {
        return SaveFailed, false;
      }
      decrypted := decrypted - {id};
      visible := visible[id := false];
      alerted := FetchEntries(data);
      outcome := Saved;
    }

    /** `exportToCSV`: `replies[i]` is what the decrypt request for `entries[i]` gave; it is only
        used when nothing is cached for that id. Returns the file's text, or None when not confirmed. */
    method ExportToCsv(confirmed: bool, replies: seq<DecryptReply>) returns (csv: Option<string>)
      requires |replies| == |entries|
      ensures !confirmed ==> csv.None?
      ensures confirmed ==> csv == Some(Strings.Join(CsvRows(entries, Collected(entries, decrypted, replies)), '\n'))
    {
      if !confirmed {
        return None;
      }
      var collected: map<string, string> := map[];
      for i := 0 to |entries|
        invariant collected == Collected(entries[..i], decrypted, replies[..i])
      {
        var id := entries[i].id;
        if Cached(decrypted, id) {
          collected := collected[id := decrypted[id]];
        } else {
          match replies[i]
          case DecryptThrew =>
            collected := collected[id := DECRYPTION_FAILED];
          case DecryptJson(p) =>
            collected := collected[id := p];
        }
        assert entries[..i + 1][..i] == entries[..i];
        assert replies[..i + 1][..i] == replies[..i];
      }
      assert entries[..|entries|] == entries && replies[..|replies|] == replies;
      csv := Some(Strings.Join(CsvRows(entries, collected), '\n'));
    }
  }
}
