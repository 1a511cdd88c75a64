/** The names of a slot on both sides: the server's name and the client's zone, with the
    mapping that comes configured and without one. */
module SlotNames {
  import opened Text
  import opened SlotIds
  import opened ParkingRoi
  import opened SnapshotMerge

  /** No entries; every id stands for itself. */
  const Plain := Mapper(map[], map[], true)

  lemma {:induction false} DashesOfConcat(a: string, b: string)
    ensures WithoutDashes(a + b) == WithoutDashes(a) + WithoutDashes(b)
  {
    if a == [] {
      assert a + b == b;
    } else {
      DashesOfConcat(a[1..], b);
      OneMoreDashless(a, b);
    }
  }

  lemma FirstDash(s: string, rest: string)
    requires s != [] && rest == s[1..]
    ensures WithoutDashes(s) == (if s[0] == '-' then [] else [s[0]]) + WithoutDashes(rest)
  {
  }

  lemma OneMoreDashless(a: string, b: string)
    requires a != [] && WithoutDashes(a[1..] + b) == WithoutDashes(a[1..]) + WithoutDashes(b)
    ensures WithoutDashes(a + b) == WithoutDashes(a) + WithoutDashes(b)
  {
    assert (a + b)[1..] == a[1..] + b;
    FirstDash(a + b, a[1..] + b);
    FirstDash(a, a[1..]);
    Regrouped(if a[0] == '-' then [] else [a[0]], WithoutDashes(a[1..]), WithoutDashes(b));
  }

  lemma Regrouped(a: string, b: string, c: string)
    ensures a + (b + c) == (a + b) + c
  {
  }

  lemma {:induction false} DigitsHaveNoDash(digits: string)
    requires AllDigits(digits)
    ensures WithoutDashes(digits) == digits
  {
    if digits != [] {
      DigitsHaveNoDash(digits[1..]);
      assert digits == [digits[0]] + digits[1..];
    }
  }

  lemma LettersWithoutDash(letters: string)
    requires letters == "EV" || letters == "P"
    ensures WithoutDashes(letters + "-") == letters
  {
    DashesOfConcat(letters, "-");
    assert WithoutDashes("-") == [];
    assert WithoutDashes("P") == "P" by {
      assert "P"[1..] == [];
    }
    assert WithoutDashes("EV") == "EV" by {
      assert "EV"[1..] == "V" && "V"[1..] == [];
      assert WithoutDashes("V") == "V";
    }
  }

  lemma ZoneIsNormal(letters: string, digits: string)
    requires letters == "EV" || letters == "P"
    requires AllDigits(digits)
    ensures NormalizeSlotId(letters + "-" + digits) == letters + "-" + digits
    ensures Upper(Trim(letters + "-" + digits)) == letters + "-" + digits
    ensures Upper(Trim(letters + digits)) == letters + digits
  {
    DigitsAreNormal(letters + "-", digits);
    DigitsAreNormal(letters, digits);
    AlreadyDashed(letters + "-" + digits, letters, digits);
    NormalDigits(letters + "-", digits);
    NormalDigits(letters, digits);
  }

  lemma NormalDigits(letters: string, digits: string)
    requires AllDigits(digits) && letters != "" && IsNormal(letters)
    ensures Upper(Trim(letters + digits)) == letters + digits
  {
    var id := letters + digits;
    assert Upper(id) == id by {
      forall i | 0 <= i < |id|
        ensures Upper(id)[i] == id[i]
      {
        if i < |letters| {
          assert id[i] == letters[i] == Upper(letters)[i];
        }
      }
    }
    assert id[0] == letters[0];
    assert digits != "" ==> id[|id| - 1] == digits[|digits| - 1];
    TrimmedStays(id);
  }

  /** Without a mapping the server's name of a zone is the zone without its dash. */
  lemma ServerNameOfZone(letters: string, digits: string)
    requires letters == "EV" || letters == "P"
    requires AllDigits(digits)
    ensures ServerSlotId(Plain, letters + "-" + digits) == letters + digits
  {
    var zone := letters + "-" + digits;
    ZoneIsNormal(letters, digits);
    DashesOfConcat(letters + "-", digits);
    LettersWithoutDash(letters);
    DigitsHaveNoDash(digits);
    assert "EV-" <= zone || "P-" <= zone;
  }

  /** And the zone of that name is the same zone again exactly when it has two digits or more. */
  lemma NamesRoundTripExactly(letters: string, digits: string)
    requires letters == "EV" || letters == "P"
    requires AllDigits(digits)
    ensures ZoneId(Plain, ServerSlotId(Plain, letters + "-" + digits)) == letters + "-" + digits <==> |digits| >= 2
  {
    ServerNameOfZone(letters, digits);
    ZoneIsNormal(letters, digits);
    DashIsOptional(letters, digits);
  }

  /** With an entry the slot stands for the configured zone, in normal form. */
  lemma MappedZone(mapper: Mapper, slot: string)
    requires Upper(Trim(slot)) in mapper.serverToZone && mapper.serverToZone[Upper(Trim(slot))] != ""
    ensures ZoneId(mapper, slot) == NormalizeSlotId(mapper.serverToZone[Upper(Trim(slot))])
  {
  }

  /** A slot of a snapshot is accepted exactly when the mapping names a zone for it, or lets it stand for
      itself, and that zone is one for electric or for general parking. */
  lemma AcceptedExactly(mapper: Mapper, slot: string, zone: string)
    ensures AcceptedId(mapper, slot) == Some(zone)
       <==> && ("EV-" <= zone || "P-" <= zone)
            && (if Upper(Trim(slot)) in mapper.serverToZone
                then mapper.serverToZone[Upper(Trim(slot))] != ""
                     && NormalizeSlotId(mapper.serverToZone[Upper(Trim(slot))]) == zone
                else mapper.passthrough && Upper(Trim(slot)) != "" && NormalizeSlotId(slot) == zone)
  {
    TrimTrims(slot);
    CaseKeepsTrimmed(Trim(slot));
    TrimmedStays(Upper(Trim(slot)));
    UpperIsIdempotent(Trim(slot));
  }
}
