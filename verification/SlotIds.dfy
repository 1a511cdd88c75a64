/** The names of parking slots: the server's, and the client's `EV-1` and `P-1`. */
module SlotIds {
  import opened Text

  /** The configured slot mapping; without an entry an id stands for itself, if that is allowed. */
  datatype Mapper = Mapper(serverToZone: map<string, string>, zoneToServer: map<string, string>, passthrough: bool)
  {
    function ToZone(slot: string): string {
      var id := Upper(Trim(slot));
      if id in serverToZone then serverToZone[id] else if passthrough then id else ""
    }

    function ToServer(zone: string): string {
      var id := Upper(Trim(zone));
      if id in zoneToServer then zoneToServer[id] else if passthrough then id else ""
    }
  }

  /** `EV01` and `P01` stand for `EV-01` and `P-01`; with one digit there is no dash. */
  function NormalizeSlotId(raw: string): string {
    Dashed(Upper(Trim(raw)))
  }

  function Dashed(id: string): string {
    if "EV" <= id && '-' !in id && |id| >= 4 then id[..2] + "-" + id[2..]
    else if "P" <= id && '-' !in id && |id| >= 3 then id[..1] + "-" + id[1..]
    else id
  }

  /** The same, in place: a dash is put in after the letters. */
  method NormalizeParkingSlotId(raw: string) returns (id: string)
    ensures id == NormalizeSlotId(raw)
  {
    id := Upper(Trim(raw));
    if "EV" <= id && '-' !in id && |id| >= 4 {
      id := id[..2] + "-" + id[2..];
    } else if "P" <= id && '-' !in id && |id| >= 3 {
      id := id[..1] + "-" + id[1..];
    }
  }

  // ---------- what the normal form is ----------

  predicate IsNormal(id: string) {
    IsTrimmed(id) && Upper(id) == id
  }

  lemma NormalStays(id: string)
    requires IsNormal(id)
    requires '-' in id || !(("EV" <= id && |id| >= 4) || ("P" <= id && |id| >= 3))
    ensures NormalizeSlotId(id) == id
  {
    TrimmedStays(id);
  }

  lemma DashedIsNormal(id: string, n: nat)
    requires IsNormal(id) && 0 < n < |id|
    ensures IsNormal(id[..n] + "-" + id[n..])
    ensures '-' in id[..n] + "-" + id[n..]
  {
    var dashed := id[..n] + "-" + id[n..];
    assert dashed[n] == '-';
    assert dashed[0] == id[0];
    assert dashed[|dashed| - 1] == id[|id| - 1];
    assert Upper(dashed) == dashed by {
      forall i | 0 <= i < |dashed|
        ensures Upper(dashed)[i] == dashed[i]
      {
        if i < n {
          assert dashed[i] == id[i] == Upper(id)[i];
        } else if i > n {
          assert dashed[i] == id[i - 1] == Upper(id)[i - 1];
        }
      }
    }
  }

  /** A normal name stands for itself, whatever was written at first. */
  lemma NormalizeIsIdempotent(raw: string)
    ensures IsNormal(NormalizeSlotId(raw))
    ensures NormalizeSlotId(NormalizeSlotId(raw)) == NormalizeSlotId(raw)
  {
    var id := Upper(Trim(raw));
    TrimTrims(raw);
    CaseKeepsTrimmed(Trim(raw));
    UpperIsIdempotent(Trim(raw));
    if "EV" <= id && '-' !in id && |id| >= 4 {
      DashedIsNormal(id, 2);
      NormalStays(id[..2] + "-" + id[2..]);
    } else if "P" <= id && '-' !in id && |id| >= 3 {
      DashedIsNormal(id, 1);
      NormalStays(id[..1] + "-" + id[1..]);
    } else {
      NormalStays(id);
    }
  }

  lemma DigitsAreNormal(letters: string, digits: string)
    requires AllDigits(digits) && letters != "" && IsNormal(letters)
    ensures NormalizeSlotId(letters + digits) == Dashed(letters + digits)
  {
    var id := letters + digits;
    assert Upper(id) == id by {
      forall i | 0 <= i < |id|
        ensures Upper(id)[i] == id[i]
      {
        if i < |letters| {
          assert id[i] == letters[i] == Upper(letters)[i];
        }
      }
    }
    assert id[0] == letters[0];
    assert digits != "" ==> id[|id| - 1] == digits[|digits| - 1];
    TrimmedStays(id);
  }

  lemma EvDashed(id: string, digits: string)
    requires id == "EV" + digits && '-' !in digits
    ensures Dashed(id) == if |digits| >= 2 then "EV" + "-" + digits else id
  {
    assert id[0] == 'E' && id[..2] == "EV" && id[2..] == digits;
    assert !("P" <= id);
    assert '-' !in id;
  }

  lemma GeneralDashed(id: string, digits: string)
    requires id == "P" + digits && '-' !in digits
    ensures Dashed(id) == if |digits| >= 2 then "P" + "-" + digits else id
  {
    assert id[0] == 'P' && id[..1] == "P" && id[1..] == digits;
  }

  lemma AlreadyDashed(id: string, letters: string, digits: string)
    requires id == letters + "-" + digits
    ensures Dashed(id) == id
  {
    assert id[|letters|] == '-';
  }

  /** Which names mean the same slot: the dash may be left out exactly before two digits or more. */
  lemma DashIsOptional(letters: string, digits: string)
    requires letters == "EV" || letters == "P"
    requires AllDigits(digits)
    ensures NormalizeSlotId(letters + digits) == NormalizeSlotId(letters + "-" + digits) <==> |digits| >= 2
  {
    DigitsAreNormal(letters, digits);
    DigitsAreNormal(letters + "-", digits);
    AlreadyDashed(letters + "-" + digits, letters, digits);
    DashPutIn(letters, digits);
    assert |letters + digits| < |letters + "-" + digits|;
  }

  lemma DashPutIn(letters: string, digits: string)
    requires letters == "EV" || letters == "P"
    requires AllDigits(digits)
    ensures Dashed(letters + digits) == if |digits| >= 2 then letters + "-" + digits else letters + digits
  {
    if letters == "EV" {
      EvDashed(letters + digits, digits);
    } else {
      GeneralDashed(letters + digits, digits);
    }
  }

  predicate IsEvSlotId(id: string) {
    "EV-" <= id
  }

  predicate IsGeneralSlotId(id: string) {
    "P-" <= id
  }

  lemma KindsDiffer(id: string)
    ensures !(IsEvSlotId(id) && IsGeneralSlotId(id))
  {
    if IsEvSlotId(id) {
      assert id[0] == "EV-"[0];
    }
    if IsGeneralSlotId(id) {
      assert id[0] == "P-"[0];
    }
  }
}
