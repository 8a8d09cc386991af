/** The server's project table: rows by id, unique fingerprints, and lookup by name. */
module ProjectTable {
  import opened Domain

  datatype ProjectRow = ProjectRow(id: string, fingerprint: string, name: string, remoteHash: string)

  predicate HasId(rows: seq<ProjectRow>, id: string) {
    exists i :: 0 <= i < |rows| && rows[i].id == id
  }

  predicate HasFingerprint(rows: seq<ProjectRow>, fingerprint: string) {
    exists i :: 0 <= i < |rows| && rows[i].fingerprint == fingerprint
  }

  predicate HasName(rows: seq<ProjectRow>, name: string) {
    exists i :: 0 <= i < |rows| && rows[i].name == name
  }

  /** A project without a name gets one from its id. */
  function NameOf(p: ProjectInfo): string {
    if p.name != "" then p.name else "project-" + (if |p.id| < 8 then p.id else p.id[..8])
  }

  function FingerprintOf(p: ProjectInfo): string {
    if p.fingerprint != "" then p.fingerprint else p.id
  }

  predicate IsFirstOfName(rows: seq<ProjectRow>, i: int, name: string) {
    0 <= i < |rows| && rows[i].name == name && forall j :: 0 <= j < i ==> rows[j].name != name
  }

  /** The oldest row with the name; the rows are in order of creation. */
  function FirstNamed(rows: seq<ProjectRow>, name: string): (row: Option<ProjectRow>)
    ensures row.Some? <==> HasName(rows, name)
    ensures row.Some? ==> HasId(rows, row.value.id) && exists i :: IsFirstOfName(rows, i, name) && rows[i] == row.value
  {
    if |rows| == 0 then None
    else if rows[0].name == name then
      assert HasId(rows, rows[0].id) && IsFirstOfName(rows, 0, name);
      Some(rows[0])
    else
      var row := FirstNamed(rows[1..], name);
      assert forall i :: IsFirstOfName(rows[1..], i, name) ==> IsFirstOfName(rows, i + 1, name);
      assert forall i :: 0 <= i < |rows| && rows[i].name == name ==> i > 0 && rows[1..][i - 1].name == name;
      assert forall i :: 0 <= i < |rows| - 1 ==> rows[1..][i] == rows[i + 1];
      row
  }

  /** A project is known by the id of the oldest project of its name, or else by its own. */
  function ChosenId(rows: seq<ProjectRow>, p: ProjectInfo): string {
    var named := FirstNamed(rows, NameOf(p));
    if named.Some? then named.value.id else p.id
  }

  /** A new row must not repeat a fingerprint; a row whose name or id is known is not new. */
  predicate Accepts(rows: seq<ProjectRow>, p: ProjectInfo) {
    HasName(rows, NameOf(p)) || HasId(rows, p.id) || !HasFingerprint(rows, FingerprintOf(p))
  }

  /** ON CONFLICT(id) DO UPDATE: a generated name does not replace the name, and a missing hash keeps the hash. */
  function Renewed(row: ProjectRow, p: ProjectInfo): ProjectRow {
    row.(name := if "project-" <= NameOf(p) then row.name else NameOf(p),
         remoteHash := if p.remoteHash != "" then p.remoteHash else row.remoteHash)
  }

  function Renew(rows: seq<ProjectRow>, id: string, p: ProjectInfo): (rows': seq<ProjectRow>)
    ensures |rows'| == |rows|
    ensures forall i :: 0 <= i < |rows| ==> rows'[i] == if rows[i].id == id then Renewed(rows[i], p) else rows[i]
  {
    seq(|rows|, (i: nat) requires i < |rows| => if rows[i].id == id then Renewed(rows[i], p) else rows[i])
  }

  /** The table after an accepted project. */
  function Stored(rows: seq<ProjectRow>, p: ProjectInfo): seq<ProjectRow> {
    var id := ChosenId(rows, p);
    if HasId(rows, id) then Renew(rows, id, p)
    else rows + [ProjectRow(id, FingerprintOf(p), NameOf(p), p.remoteHash)]
  }

  ghost predicate UniqueRows(rows: seq<ProjectRow>) {
    forall i, j :: 0 <= i < j < |rows| ==> rows[i].id != rows[j].id && rows[i].fingerprint != rows[j].fingerprint
  }

  /** Accepted projects keep ids and fingerprints unique, and leave a row under the chosen id. */
  lemma StoredUnique(rows: seq<ProjectRow>, p: ProjectInfo)
    requires UniqueRows(rows) && Accepts(rows, p)
    ensures UniqueRows(Stored(rows, p)) && HasId(Stored(rows, p), ChosenId(rows, p))
  {
    var id := ChosenId(rows, p);
    if HasId(rows, id) {
      RenewedUnique(rows, id, p);
    } else {
      NotChosenNew(rows, p);
      AppendedUnique(rows, ProjectRow(id, FingerprintOf(p), NameOf(p), p.remoteHash));
    }
  }

  lemma RenewedUnique(rows: seq<ProjectRow>, id: string, p: ProjectInfo)
    requires UniqueRows(rows) && HasId(rows, id)
    ensures UniqueRows(Renew(rows, id, p)) && HasId(Renew(rows, id, p), id)
  {
    var i :| 0 <= i < |rows| && rows[i].id == id;
    assert Renew(rows, id, p)[i].id == id;
  }

  lemma AppendedUnique(rows: seq<ProjectRow>, row: ProjectRow)
    requires UniqueRows(rows) && !HasId(rows, row.id) && !HasFingerprint(rows, row.fingerprint)
    ensures UniqueRows(rows + [row]) && HasId(rows + [row], row.id)
  {
    assert (rows + [row])[|rows|].id == row.id;
  }

  /** Only a project of an unknown name is stored under a new id, its own. */
  lemma NotChosenNew(rows: seq<ProjectRow>, p: ProjectInfo)
    requires !HasId(rows, ChosenId(rows, p))
    ensures !HasName(rows, NameOf(p)) && ChosenId(rows, p) == p.id
  {
  }

  /** Every fingerprint of the new table is an old one, or the project's own under its own id. */
  lemma StoredFingerprints(rows: seq<ProjectRow>, p: ProjectInfo, row: ProjectRow)
    requires row in Stored(rows, p)
    ensures (exists known :: known in rows && known.id == row.id && known.fingerprint == row.fingerprint)
            || (row.id == p.id && row.fingerprint == FingerprintOf(p))
  {
    var i :| 0 <= i < |Stored(rows, p)| && Stored(rows, p)[i] == row;
    if HasId(rows, ChosenId(rows, p)) || i < |rows| {
      assert rows[i] in rows && rows[i].id == row.id && rows[i].fingerprint == row.fingerprint;
    } else {
      NotChosenNew(rows, p);
    }
  }

  lemma FirstOfNameFound(rows: seq<ProjectRow>, i: int, name: string)
    requires IsFirstOfName(rows, i, name)
    ensures FirstNamed(rows, name) == Some(rows[i])
  {
    var row := FirstNamed(rows, name);
    assert HasName(rows, name);
    var j :| IsFirstOfName(rows, j, name) && rows[j] == row.value;
    assert !(i < j) && !(j < i);
  }

  /** Storing a project again changes nothing more and finds the same id: a session's project is stable under
      repeated rebuilds. */
  lemma StoredAgain(rows: seq<ProjectRow>, p: ProjectInfo)
    requires UniqueRows(rows) && Accepts(rows, p)
    ensures ChosenId(Stored(rows, p), p) == ChosenId(rows, p)
    ensures Accepts(Stored(rows, p), p) && Stored(Stored(rows, p), p) == Stored(rows, p)
  {
    StoredUnique(rows, p);
    SameChosen(rows, p);
    RenewTwice(Stored(rows, p), rows, ChosenId(rows, p), p);
  }

  lemma SameChosen(rows: seq<ProjectRow>, p: ProjectInfo)
    requires UniqueRows(rows) && Accepts(rows, p)
    ensures ChosenId(Stored(rows, p), p) == ChosenId(rows, p)
  {
    var id, name, after := ChosenId(rows, p), NameOf(p), Stored(rows, p);
    if HasName(rows, name) {
      var i :| IsFirstOfName(rows, i, name) && rows[i] == FirstNamed(rows, name).value;
      assert HasId(rows, id) && IsFirstOfName(after, i, name);
      FirstOfNameFound(after, i, name);
    } else if HasId(rows, id) {
      if HasName(after, name) {
        var i :| 0 <= i < |after| && after[i].name == name;
        assert rows[i].id == id && IsFirstOfName(after, i, name);
        FirstOfNameFound(after, i, name);
      }
    } else {
      assert IsFirstOfName(after, |rows|, name);
      FirstOfNameFound(after, |rows|, name);
    }
  }

  /** Renewing what was stored changes nothing. */
  lemma RenewTwice(after: seq<ProjectRow>, rows: seq<ProjectRow>, id: string, p: ProjectInfo)
    requires UniqueRows(rows) && id == ChosenId(rows, p) && after == Stored(rows, p)
    ensures Renew(after, id, p) == after
  {
    forall i | 0 <= i < |after|
      ensures Renew(after, id, p)[i] == after[i]
    {
    }
  }

  /** A project without a name renames no project. */
  lemma NamelessRenamesNothing(rows: seq<ProjectRow>, p: ProjectInfo, i: nat)
    requires i < |rows| && p.name == ""
    ensures Stored(rows, p)[i].name == rows[i].name && Stored(rows, p)[i].id == rows[i].id
  {
    assert "project-" <= NameOf(p);
  }

  /** A project without a remote hash leaves every hash as it is; one with a hash leaves it in its row. */
  lemma HashKept(rows: seq<ProjectRow>, p: ProjectInfo)
    requires UniqueRows(rows) && Accepts(rows, p)
    ensures p.remoteHash == "" ==>
              forall i :: 0 <= i < |rows| ==> Stored(rows, p)[i].remoteHash == rows[i].remoteHash
    ensures p.remoteHash != "" ==>
              exists row :: row in Stored(rows, p) && row.id == ChosenId(rows, p) && row.remoteHash == p.remoteHash
  {
    StoredUnique(rows, p);
    var i :| 0 <= i < |Stored(rows, p)| && Stored(rows, p)[i].id == ChosenId(rows, p);
    assert Stored(rows, p)[i] in Stored(rows, p);
  }

  /** A new project is stored under its own fingerprint, or under its id if it has none. */
  lemma NewFingerprint(rows: seq<ProjectRow>, p: ProjectInfo)
    requires !HasId(rows, ChosenId(rows, p))
    ensures |Stored(rows, p)| == |rows| + 1
    ensures Stored(rows, p)[|rows|].fingerprint == if p.fingerprint == "" then p.id else p.fingerprint
  {
    NotChosenNew(rows, p);
  }

  /** A project with a name of its own is known by it, under the id of the oldest project of that name. */
  lemma NamedIsKnown(rows: seq<ProjectRow>, p: ProjectInfo)
    requires UniqueRows(rows) && Accepts(rows, p) && p.name != "" && !("project-" <= p.name)
    ensures exists row :: row in Stored(rows, p) && row.id == ChosenId(rows, p) && row.name == p.name
    ensures forall i :: IsFirstOfName(rows, i, p.name) ==> ChosenId(rows, p) == rows[i].id
  {
    StoredUnique(rows, p);
    var id := ChosenId(rows, p);
    var i :| 0 <= i < |Stored(rows, p)| && Stored(rows, p)[i].id == id;
    assert Stored(rows, p)[i] in Stored(rows, p);
    forall i | IsFirstOfName(rows, i, p.name)
      ensures id == rows[i].id
    {
      FirstOfNameFound(rows, i, p.name);
    }
  }
}
