/**
 The server side of archiving a message: `append_message_v11`, an idempotent insert with a
 transactional outbox.  One call is one transaction; a row's id is its index.
 */
module MessageArchive {
  import opened Prelude

  datatype Row = Row(project: string, key: string, content: string)

  /** A `message.appended.v1` outbox event. */
  datatype Appended = Appended(project: string, message: nat, idempotency: string)

  datatype Archive = Archive(rows: seq<Row>, events: seq<Appended>)

  datatype Reply =
    | Stored(id: nat)
    | Duplicate(id: nat)
    | Conflict(id: nat)
    | KeyClash
    | KeyRefused

  // ---------- the event's idempotency key ----------

  function DropSpaces(text: string): (r: string)
    ensures |r| <= |text|
  {
    if |text| > 0 && IsSpace(text[0]) then DropSpaces(text[1..]) else text
  }

  /** `re.sub(r"\s+", "-", text)`. */
  function Hyphenated(text: string): string
    decreases |text|
  {
    if |text| == 0 then ""
    else if IsSpace(text[0]) then "-" + Hyphenated(DropSpaces(text[1..]))
    else [text[0]] + Hyphenated(text[1..])
  }

  predicate IsWordChar(c: char) {
    'a' <= c <= 'z' || '0' <= c <= '9'
  }

  /** `^[a-z0-9][a-z0-9._:-]*$`. */
  predicate IsPart(text: string) {
    && |text| > 0 && IsWordChar(text[0])
    && forall i :: 0 <= i < |text| ==> IsWordChar(text[i]) || text[i] in {'.', '_', ':', '-'}
  }

  /** `_normalise_part` of the event key: None where it raises `ValueError`. */
  function Normalised(key: string): Option<string> {
    var text := Hyphenated(Lower(Strip(key)));
    if IsPart(text) then Some(text) else None
  }

  function FindRow(rows: seq<Row>, project: string, key: string): (r: Option<nat>)
    ensures r.Some? ==> r.value < |rows| && rows[r.value].project == project && rows[r.value].key == key
    ensures r.None? ==> forall i :: 0 <= i < |rows| ==> !(rows[i].project == project && rows[i].key == key)
  {
    if |rows| == 0 then None
    else
      var last := rows[|rows| - 1];
      if last.project == project && last.key == key then Some(|rows| - 1) else FindRow(rows[..|rows| - 1], project, key)
  }

  predicate IdempotencyTaken(events: seq<Appended>, project: string, idempotency: string) {
    exists i :: 0 <= i < |events| && events[i].project == project && events[i].idempotency == idempotency
  }

  /**
   Known key: duplicate or conflict by content.  New key: message and event together, or
   neither when the idempotency key cannot be built or the unique index on it refuses.
   */
  function Append(a: Archive, project: string, key: string, content: string): (Archive, Reply) {
    match FindRow(a.rows, project, key)
    case Some(id) => (a, if a.rows[id].content != content then Conflict(id) else Duplicate(id))
    case None =>
      match Normalised(key)
      case None => (a, KeyRefused)
      case Some(idempotency) =>
        if IdempotencyTaken(a.events, project, idempotency) then (a, KeyClash)
        else
          (Archive(a.rows + [Row(project, key, content)], a.events + [Appended(project, |a.rows|, idempotency)]),
           Stored(|a.rows|))
  }

  class ArchiveService {
    var rows: seq<Row>
    var events: seq<Appended>

    ghost function View(): Archive
      reads this
    {
      Archive(rows, events)
    }

    constructor ()
      ensures View() == Archive([], [])
    {
      rows, events := [], [];
    }

    method AppendMessage(project: string, key: string, content: string) returns (reply: Reply)
      modifies this
      ensures (View(), reply) == Append(old(View()), project, key, content)
    {
      var existing := FindRow(rows, project, key);
      if existing.Some? {
        if rows[existing.value].content != content {
          return Conflict(existing.value);
        }
        return Duplicate(existing.value);
      }
      var savedRows, id := rows, |rows|;
      rows := rows + [Row(project, key, content)];
      var idempotency := Normalised(key);
      if idempotency.None? {
        rows := savedRows;
        return KeyRefused;
      }
      if IdempotencyTaken(events, project, idempotency.value) {
        rows := savedRows;
        return KeyClash;
      }
      events := events + [Appended(project, id, idempotency.value)];
      return Stored(id);
    }
  }

  /** At most one row per (project, key), and exactly one event per row: the i-th for row i. */
  ghost predicate Sound(a: Archive) {
    && (forall i, j :: 0 <= i < j < |a.rows| ==> a.rows[i].project != a.rows[j].project || a.rows[i].key != a.rows[j].key)
    && |a.events| == |a.rows|
    && (forall i :: 0 <= i < |a.events| ==>
          && Normalised(a.rows[i].key).Some?
          && a.events[i] == Appended(a.rows[i].project, i, Normalised(a.rows[i].key).value))
  }

  /** The archive holds this very message. */
  predicate Holds(rows: seq<Row>, project: string, key: string, content: string) {
    exists i :: 0 <= i < |rows| && rows[i] == Row(project, key, content)
  }

  /**
   Appending keeps the archive sound and never changes a stored row; the message is held
   afterwards exactly when the reply is stored or duplicate.
   */
  lemma AppendSound(a: Archive, project: string, key: string, content: string)
    requires Sound(a)
    ensures var (b, reply) := Append(a, project, key, content);
      && Sound(b) && a.rows <= b.rows && a.events <= b.events
      && (reply.Stored? || reply.Duplicate? <==> Holds(b.rows, project, key, content))
      && (reply.Conflict? <==> exists other :: other != content && Holds(b.rows, project, key, other))
  {
    var (b, reply) := Append(a, project, key, content);
    match FindRow(a.rows, project, key) {
      case Some(id) =>
        assert a.rows[id] == Row(project, key, a.rows[id].content);
        assert Holds(b.rows, project, key, a.rows[id].content);
      case None =>
        if reply.Stored? {
          assert b.rows[|a.rows|] == Row(project, key, content);
        }
    }
  }

  /** Appending the same message again finds it: any number of retries has one effect. */
  lemma AppendIdempotent(a: Archive, project: string, key: string, content: string)
    requires Sound(a)
    ensures var (b, reply) := Append(a, project, key, content);
      reply.Stored? || reply.Duplicate? ==> Append(b, project, key, content) == (b, Duplicate(reply.id))
  {
    var (b, reply) := Append(a, project, key, content);
    AppendSound(a, project, key, content);
    if reply.Stored? || reply.Duplicate? {
      var again := FindRow(b.rows, project, key);
      assert b.rows[reply.id] == Row(project, key, content);
      assert again.Some?;
      if again.value < reply.id {
        assert false;
      }
    }
  }

  /** The reply: known messages are found, new ones stored under the next id, and nothing else changes. */
  lemma AppendExact(a: Archive, project: string, key: string, content: string)
    requires Sound(a)
    ensures var (b, reply) := Append(a, project, key, content);
      if Holds(a.rows, project, key, content) then
        b == a && reply.Duplicate? && reply.id < |a.rows| && a.rows[reply.id] == Row(project, key, content)
      else if exists other :: Holds(a.rows, project, key, other) then
        b == a && reply.Conflict? && reply.id < |a.rows| && a.rows[reply.id].project == project && a.rows[reply.id].key == key
      else if reply.Stored? then
        && reply.id == |a.rows| && b.rows == a.rows + [Row(project, key, content)]
        && Normalised(key).Some? && b.events == a.events + [Appended(project, |a.rows|, Normalised(key).value)]
      else b == a && (reply.KeyClash? || reply.KeyRefused?)
  {
    match FindRow(a.rows, project, key) {
      case Some(id) =>
        assert a.rows[id] == Row(project, key, a.rows[id].content);
        assert Holds(a.rows, project, key, a.rows[id].content);
      case None =>
    }
  }

  /** A character an event key may have. */
  predicate IsKeyChar(c: char) {
    'a' <= c <= 'z' || '0' <= c <= '9' || c == '.' || c == '_' || c == ':' || c == '-'
  }

  predicate IsPlain(key: string) {
    && |key| > 0 && ('a' <= key[0] <= 'z' || '0' <= key[0] <= '9')
    && forall i :: 0 <= i < |key| ==> IsKeyChar(key[i])
  }

  lemma {:induction false} PlainHyphenated(text: string)
    requires forall i :: 0 <= i < |text| ==> IsKeyChar(text[i])
    ensures Hyphenated(text) == text
  {
    if |text| != 0 {
      assert IsKeyChar(text[0]);
      PlainHyphenated(text[1..]);
    }
  }

  /** A plain key normalises to itself, and every key that normalises does so to a plain one. */
  lemma NormalisedExact(key: string)
    ensures IsPlain(key) ==> Normalised(key) == Some(key)
    ensures Normalised(key).Some? ==> IsPlain(Normalised(key).value)
  {
    if IsPlain(key) {
      assert IsKeyChar(key[0]) && IsKeyChar(key[|key| - 1]);
      assert Strip(key) == key;
      forall i | 0 <= i < |key| ensures Lower(key)[i] == key[i] {
        assert IsKeyChar(key[i]);
      }
      assert Lower(key) == key;
      PlainHyphenated(key);
    }
  }

  // ---------- keys that can never be stored ----------

  /** Some message of the project has a key that normalises to the same text. */
  predicate Shadowed(rows: seq<Row>, project: string, key: string) {
    exists i :: 0 <= i < |rows| && rows[i].project == project && Normalised(rows[i].key) == Normalised(key)
  }

  /** A new key that is refused characters, or shadowed by another key. */
  predicate Doomed(a: Archive, project: string, key: string) {
    FindRow(a.rows, project, key).None? && (Normalised(key).None? || Shadowed(a.rows, project, key))
  }

  /**
   Exactly when an append fails without a verdict on the message: a new key clashes iff it
   normalises to the same text as a stored one, and is refused iff it does not normalise.
   */
  lemma {:induction false} FailsExactly(a: Archive, project: string, key: string, content: string)
    requires Sound(a)
    ensures var reply := Append(a, project, key, content).1;
      && (reply.KeyClash? <==>
            FindRow(a.rows, project, key).None? && Normalised(key).Some? && Shadowed(a.rows, project, key))
      && (reply.KeyRefused? <==> FindRow(a.rows, project, key).None? && Normalised(key).None?)
      && (reply.KeyClash? || reply.KeyRefused? <==> Doomed(a, project, key))
  {
    if FindRow(a.rows, project, key).None? && Normalised(key).Some? {
      if i :| 0 <= i < |a.events| && a.events[i].project == project && a.events[i].idempotency == Normalised(key).value {
        assert Normalised(a.rows[i].key) == Normalised(key);
      }
      if i :| 0 <= i < |a.rows| && a.rows[i].project == project && Normalised(a.rows[i].key) == Normalised(key) {
        assert a.events[i].idempotency == Normalised(key).value;
      }
    }
  }

  /** No later append rescues a doomed key. */
  lemma DoomedStays(a: Archive, project: string, key: string, other: string, otherKey: string, content: string)
    requires Sound(a) && Doomed(a, project, key)
    ensures Doomed(Append(a, other, otherKey, content).0, project, key)
  {
    FailsExactly(a, other, otherKey, content);
    var b := Append(a, other, otherKey, content).0;
    if b != a {
      var row := Row(other, otherKey, content);
      assert b.rows == a.rows + [row];
      assert b.rows[..|a.rows|] == a.rows;
      if Normalised(key).Some? {
        var i :| 0 <= i < |a.rows| && a.rows[i].project == project && Normalised(a.rows[i].key) == Normalised(key);
        assert b.rows[i] == a.rows[i];
      }
    }
  }

  /** With `a-b` stored, the keys `a b` and `A-B` are doomed; so is `-` in any archive. */
  lemma DoomedKeys(project: string, content: string)
    ensures var a := Append(Archive([], []), project, "a-b", content).0;
      Doomed(a, project, "a b") && Doomed(a, project, "A-B") && Doomed(a, project, "-")
  {
    NormalisesTo("a-b", "a-b");
    NormalisesTo("A-B", "a-b");
    NormalisedWithSpace();
    HyphenRefused();
    var a := Append(Archive([], []), project, "a-b", content).0;
    assert a.rows == [Row(project, "a-b", content)];
    DoomedInOne(project, "a-b", content, "a b");
    DoomedInOne(project, "a-b", content, "A-B");
    DoomedInOne(project, "a-b", content, "-");
  }

  /** With one row stored, any other key that normalises alike is doomed, and any that is refused. */
  lemma DoomedInOne(project: string, key: string, content: string, other: string)
    requires other != key && (Normalised(other).None? || Normalised(other) == Normalised(key))
    ensures Doomed(Archive([Row(project, key, content)], Append(Archive([], []), project, key, content).0.events), project, other)
  {
    var rows := [Row(project, key, content)];
    assert rows[..0] == [];
    assert FindRow(rows, project, other).None?;
    assert rows[0].project == project && Normalised(rows[0].key) == Normalised(key);
  }

  lemma HyphenRefused()
    ensures Normalised("-").None?
  {
    assert Hyphenated("-") == "-" by {
      assert "-"[1..] == "";
    }
    assert Lower("-") == "-";
  }

  lemma NormalisesTo(key: string, lower: string)
    requires |key| == |lower| == 3 && Lower(key) == lower && IsPart(lower)
    requires forall i :: 0 <= i < 3 ==> !IsSpace(key[i]) && !IsSpace(lower[i])
    ensures Normalised(key) == Some(lower)
  {
    assert lower[1..][1..] == [lower[2]] && [lower[2]][1..] == "";
    assert Hyphenated([lower[2]]) == [lower[2]];
    assert Hyphenated(lower[1..]) == lower[1..];
    assert Hyphenated(lower) == [lower[0]] + lower[1..] == lower;
    assert Strip(key) == key;
  }

  lemma NormalisedWithSpace()
    ensures Normalised("a b") == Some("a-b")
  {
    assert Lower("a b") == "a b";
    assert "a b"[1..] == " b" && " b"[1..] == "b" && "b"[1..] == "";
    assert Hyphenated("b") == "b";
    assert Hyphenated(" b") == "-b";
    assert Hyphenated("a b") == "a-b";
  }
}
