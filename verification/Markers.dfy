/** The line that ties an escalation to its approval (`parkedApprovalMarker`), and when finding it is unambiguous. */
module Markers {
  import opened Base

  const PREFIX: string := "Approval: "
  const ID_LENGTH: nat := 36

  function Marker(uuid: string): string
  {
    PREFIX + uuid
  }

  /** The detail of a parked approval's escalation: its prose, then the marker on a line of its own. */
  function Detail(text: string, uuid: string): string
  {
    text + "\n" + Marker(uuid)
  }

  predicate WellFormedId(uuid: string)
  {
    |uuid| == ID_LENGTH && '\n' !in uuid
  }

  lemma DetailContainsMarker(text: string, uuid: string)
    ensures Contains(Detail(text, uuid), Marker(uuid))
  {
    assert OccursAt(Detail(text, uuid), Marker(uuid), |text| + 1);
  }

  lemma MarkerHasNoNewline(uuid: string)
    requires WellFormedId(uuid)
    ensures '\n' !in Marker(uuid)
  {
  }

  /** An occurrence ends inside the prose, spans the newline, or is the marker itself. */
  lemma OccurrencesInDetail(text: string, uuid: string, uuid': string, k: nat)
    requires WellFormedId(uuid) && WellFormedId(uuid')
    requires OccursAt(Detail(text, uuid), Marker(uuid'), k)
    ensures uuid == uuid' || Contains(text, Marker(uuid'))
  {
    var d, m := Detail(text, uuid), Marker(uuid');
    if k + |m| <= |text| {
      assert text[k..k + |m|] == d[k..k + |m|];
      assert OccursAt(text, m, k);
    } else if k <= |text| {
      assert m[|text| - k] == d[k..k + |m|][|text| - k] == d[|text|] == '\n';
      MarkerHasNoNewline(uuid');
    } else {
      assert k == |text| + 1;
      assert d[k..k + |m|] == Marker(uuid);
      assert Marker(uuid)[|PREFIX|..] == uuid && m[|PREFIX|..] == uuid';
    }
  }

  /** A detail contains another approval's marker exactly when its prose does. */
  lemma DetailNamesOneApproval(text: string, uuid: string, uuid': string)
    requires WellFormedId(uuid) && WellFormedId(uuid') && uuid != uuid'
    ensures Contains(Detail(text, uuid), Marker(uuid')) <==> Contains(text, Marker(uuid'))
  {
    var d, m := Detail(text, uuid), Marker(uuid');
    if Contains(d, m) {
      var k :| 0 <= k <= |d| && OccursAt(d, m, k);
      OccurrencesInDetail(text, uuid, uuid', k);
    }
    if Contains(text, m) {
      var k :| 0 <= k <= |text| && OccursAt(text, m, k);
      assert d[k..k + |m|] == text[k..k + |m|];
      assert OccursAt(d, m, k);
    }
  }
}
