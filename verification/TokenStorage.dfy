/** The page's copy of the session token over a browser storage that may fail to read or to write. */
module TokenStorage {
  import opened Wrappers

  /**
   * stored is what the browser holds, which other tabs change too. unsavedOver is what it held when
   * this page's last write failed, if it did.
   */
  datatype Storage = Storage(pageToken: Option<string>, readable: bool, unsavedOver: Option<Option<string>>,
    stored: Option<string>)

  function Read(s: Storage, canRead: bool): (Storage, Option<Option<string>>) {
    if s.readable && canRead then (s, Some(s.stored)) else (s.(readable := false), None)
  }

  function Write(s: Storage, token: Option<string>, canWrite: bool, canRead: bool): Storage {
    var s' := s.(pageToken := token);
    if canWrite then s'.(stored := token, unsavedOver := None)
    else Read(s', canRead).0.(unsavedOver := Read(s', canRead).1)
  }

  function Get(s: Storage, canRead: bool): (Storage, Option<string>) {
    var (s', held) := Read(s, canRead);
    if held.None? || held == s'.unsavedOver then (s', s'.pageToken)
    else (s'.(unsavedOver := None, pageToken := held.value), held.value)
  }

  // ---------------------------------------------------------------- what the page can rely on

  datatype Event =
    | Sets(token: Option<string>, canWrite: bool, canRead: bool)
    | Gets(canRead: bool)
    | OtherTab(value: Option<string>)

  function Happen(s: Storage, e: Event): Storage {
    match e
    case Sets(token, canWrite, canRead) => Write(s, token, canWrite, canRead)
    case Gets(canRead) => Get(s, canRead).0
    case OtherTab(value) => s.(stored := value)
  }

  function After(s: Storage, events: seq<Event>): Storage
    decreases events
  {
    if events == [] then s else After(Happen(s, events[0]), events[1..])
  }

  /** The page's copy is what it last wrote, and a read can only answer with it. */
  ghost predicate Settled(s: Storage, token: Option<string>) {
    s.pageToken == token && (!s.readable || s.unsavedOver == Some(s.stored) || s.stored == token)
  }

  lemma {:induction false} StaysSettled(s: Storage, token: Option<string>, events: seq<Event>)
    requires Settled(s, token) && forall i | 0 <= i < |events| :: events[i].Gets?
    ensures Settled(After(s, events), token)
    decreases events
  {
    if events != [] {
      assert events[0].Gets?;
      StaysSettled(Happen(s, events[0]), token, events[1..]);
    }
  }

  /** The page reads back what it wrote, whichever writes and reads of the storage fail. */
  lemma WritesAreReadBack(
    s: Storage, token: Option<string>, canWrite: bool, couldRead: bool, events: seq<Event>, canRead: bool)
    requires forall i | 0 <= i < |events| :: events[i].Gets?
    ensures Get(After(Write(s, token, canWrite, couldRead), events), canRead).1 == token
  {
    StaysSettled(Write(s, token, canWrite, couldRead), token, events);
  }

  /**
   * Another tab's write is seen by the next read exactly if storage can be read and either the value
   * differs from what a failed write left there, or the page happens to hold it already.
   */
  lemma OtherTabIsSeen(s: Storage, value: Option<string>, canRead: bool)
    ensures Get(Happen(s, OtherTab(value)), canRead).1 == value <==>
            (s.readable && canRead && s.unsavedOver != Some(value)) || s.pageToken == value
  {
  }

  /** Two reads with nothing in between agree, even if storage stops being readable. */
  lemma ReadsAgree(s: Storage, canRead: bool, canReadLater: bool)
    ensures Get(Get(s, canRead).0, canReadLater).1 == Get(s, canRead).1
  {
  }

  /** After a read has failed the page never reads storage again: every read answers what it last wrote or saw. */
  lemma {:induction false} FailedReadIsFinal(s: Storage, events: seq<Event>, canRead: bool)
    requires !s.readable
    ensures !After(s, events).readable && Get(After(s, events), canRead).1 == After(s, events).pageToken
    ensures (forall i | 0 <= i < |events| :: !events[i].Sets?) ==> After(s, events).pageToken == s.pageToken
    decreases events
  {
    if events != [] { FailedReadIsFinal(Happen(s, events[0]), events[1..], canRead); }
  }

  // ---------------------------------------------------------------- the module's variables

  class PageStorage {
    var pageToken: Option<string>
    var storageReadable: bool
    var unsavedOver: Option<Option<string>>
    var stored: Option<string>

    function Snapshot(): Storage
      reads this
    {
      Storage(pageToken, storageReadable, unsavedOver, stored)
    }

    constructor (stored: Option<string>)
      ensures Snapshot() == Storage(None, true, None, stored)
    {
      pageToken, storageReadable, unsavedOver, this.stored := None, true, None, stored;
    }

    method ReadStored(canRead: bool) returns (held: Option<Option<string>>)
      modifies this`storageReadable
      ensures (Snapshot(), held) == Read(old(Snapshot()), canRead)
    {
      if !storageReadable { return None; }
      if !canRead {
        storageReadable := false;
        return None;
      }
      return Some(stored);
    }

    method WriteStored(token: Option<string>, canWrite: bool, canRead: bool)
      modifies this
      ensures Snapshot() == Write(old(Snapshot()), token, canWrite, canRead) && Settled(Snapshot(), token)
    {
      pageToken := token;
      if canWrite {
        stored := token;
        unsavedOver := None;
      } else {
        var held := ReadStored(canRead);
        unsavedOver := held;
      }
    }

    method GetToken(canRead: bool) returns (token: Option<string>)
      modifies this
      ensures (Snapshot(), token) == Get(old(Snapshot()), canRead) && Settled(Snapshot(), token)
    {
      var held := ReadStored(canRead);
      if held.None? || held == unsavedOver { return pageToken; }
      unsavedOver := None;
      pageToken := held.value;
      return held.value;
    }
  }
}
