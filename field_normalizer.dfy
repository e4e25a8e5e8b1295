/** Step 4 of the scraper: the `main_fields` dict literal. One output key is
    computed (the full name, with its prefix markup removed); every other
    output key copies one named field of the evaluated payload. */
module FieldNormalizer {
  import opened Wrappers
  import opened Records
  import opened Columns

  /** The evaluated `findagrave` object: its fields by name. */
  type Payload = map<string, Value>

  /** Attribute access on the evaluated object: a field it lacks reads as
      undefined, which arrives as None. */
  function Field(payload: Payload, name: string): Value {
    if name in payload then payload[name] else Null
  }

  /** The keys of `main_fields`, in the literal's order: MainKeys[i] is
      filled from the payload field PayloadFields[i]. Entry 0 (`full_name`
      from `fullName`) is cleaned first; every other entry is copied. */
  const MainKeys: seq<Column> := [
    FullName, FirstName, LastName, BirthYear, DeathYear,
    DeathDate, DeathMonth, DeathDay, CemeteryName, CemeteryCity,
    CemeteryCounty, CemeteryState, CemeteryCountry, CemeteryLatitude,
    CemeteryLongitude, MemorialId, PersonId, MemorialContributorId,
    SponsorContributorId, MemorialUrl, IsFamous, IsCenotaph,
    HasGravePhoto, CoverPhotoId, CoverPhotoUrl, DefaultPhotoUrl,
    CemeteryId]

  const PayloadFields: seq<string> := [
    "fullName", "firstName", "lastName", "birthYear", "deathYear",
    "deathDate", "deathMonth", "deathDay", "cemeteryName", "cemeteryCityName",
    "cemeteryCountyName", "cemeteryStateName", "cemeteryCountryName", "cemeteryLatitude",
    "cemeteryLongitude", "memorialId", "personId", "memorialContributorId",
    "sponsorContributorId", "linkToShare", "isFamous", "isCenotaph",
    "intermentHasPhoto", "coverPhotoId", "photoToShare", "defaultPhotoToShare",
    "memorialCemeteryId"]

  lemma MainKeysDistinct()
    ensures Distinct(MainKeys)
  {
  }

  lemma TableLengths()
    ensures |MainKeys| == |PayloadFields| == 27
  {
  }

  /** Evaluating the copied entries of the literal left to right. */
  function CopyInto<K(!new)>(r: Row<K>, keys: seq<K>, sources: seq<string>, payload: Payload): (r': Row<K>)
    requires WellFormed(r)
    requires |keys| == |sources|
    ensures WellFormed(r')
    ensures forall k :: k in r.cells ==> k in r'.cells
    decreases |keys|
  {
    if keys == [] then r
    else CopyInto(Put(r, keys[0], Field(payload, sources[0])), keys[1..], sources[1..], payload)
  }

  lemma DistinctTail<K(!new)>(keys: seq<K>)
    requires Distinct(keys) && keys != []
    ensures Distinct(keys[1..]) && keys[0] !in keys[1..]
  {
  }

  /** Copying entries with fresh, distinct keys appends those keys in order. */
  lemma {:induction false} CopyIntoColumns<K(!new)>(r: Row<K>, keys: seq<K>, sources: seq<string>, payload: Payload)
    requires WellFormed(r)
    requires |keys| == |sources|
    requires Distinct(keys)
    requires forall k :: k in keys ==> k !in r.cells
    ensures CopyInto(r, keys, sources, payload).columns == r.columns + keys
    decreases |keys|
  {
    if keys == [] {
      assert r.columns + keys == r.columns;
    } else {
      var r1 := Put(r, keys[0], Field(payload, sources[0]));
      DistinctTail(keys);
      assert r1.columns == r.columns + [keys[0]];
      forall k | k in keys[1..] ensures k !in r1.cells {
        assert k in keys && k != keys[0];
      }
      CopyIntoColumns(r1, keys[1..], sources[1..], payload);
      AppendHeadTail(r.columns, keys);
    }
  }

  /** Copying keeps the value of every key that was already there and not
      copied again. */
  lemma {:induction false} CopyIntoKeeps<K(!new)>(r: Row<K>, keys: seq<K>, sources: seq<string>, payload: Payload, k: K)
    requires WellFormed(r)
    requires |keys| == |sources|
    requires k in r.cells && k !in keys
    ensures CopyInto(r, keys, sources, payload).cells[k] == r.cells[k]
    decreases |keys|
  {
    if keys != [] {
      var r1 := Put(r, keys[0], Field(payload, sources[0]));
      CopyIntoKeeps(r1, keys[1..], sources[1..], payload, k);
    }
  }

  /** Each copied key holds its payload field. */
  lemma {:induction false} CopyIntoValue<K(!new)>(r: Row<K>, keys: seq<K>, sources: seq<string>, payload: Payload, i: nat)
    requires WellFormed(r)
    requires |keys| == |sources|
    requires Distinct(keys)
    requires i < |keys|
    ensures keys[i] in CopyInto(r, keys, sources, payload).cells
    ensures CopyInto(r, keys, sources, payload).cells[keys[i]] == Field(payload, sources[i])
    decreases |keys|
  {
    var r1 := Put(r, keys[0], Field(payload, sources[0]));
    DistinctTail(keys);
    if i == 0 {
      CopyIntoKeeps(r1, keys[1..], sources[1..], payload, keys[0]);
    } else {
      CopyIntoValue(r1, keys[1..], sources[1..], payload, i - 1);
    }
  }

  /** A literal whose first entry is computed and whose other entries are
      copied, with distinct keys: the keys in order, the computed value first,
      each other key holding its payload field. */
  lemma TableRecord<K(!new)>(keys: seq<K>, fields: seq<string>, payload: Payload, first: Value)
    requires |keys| == |fields| && keys != [] && Distinct(keys)
    ensures var r := CopyInto(Row([keys[0]], map[keys[0] := first]), keys[1..], fields[1..], payload);
            && WellFormed(r)
            && r.columns == keys
            && keys[0] in r.cells && r.cells[keys[0]] == first
            && forall i :: 1 <= i < |keys| ==> keys[i] in r.cells && r.cells[keys[i]] == Field(payload, fields[i])
  {
    DistinctTail(keys);
    var r0 := Row([keys[0]], map[keys[0] := first]);
    CopyIntoColumns(r0, keys[1..], fields[1..], payload);
    assert [keys[0]] + keys[1..] == keys;
    CopyIntoKeeps(r0, keys[1..], fields[1..], payload, keys[0]);
    forall i | 1 <= i < |keys|
      ensures CopyInto(r0, keys[1..], fields[1..], payload).cells[keys[i]] == Field(payload, fields[i])
    {
      CopyIntoValue(r0, keys[1..], fields[1..], payload, i - 1);
    }
  }

  /** The `main_fields` literal, once the full name has been cleaned. */
  function MainFields(payload: Payload, cleanedName: string): (r: Row<Column>)
    ensures WellFormed(r)
  {
    CopyInto(Row([MainKeys[0]], map[MainKeys[0] := Str(cleanedName)]),
             MainKeys[1..], PayloadFields[1..], payload)
  }

  /** The record of step 4: the 27 distinct keys in the literal's order;
      `full_name` is the cleaned text, and every other key holds its
      payload field unchanged. */
  lemma MainFieldsTable(payload: Payload, cleanedName: string)
    ensures |MainKeys| == |PayloadFields|
    ensures var r := MainFields(payload, cleanedName);
            && WellFormed(r)
            && r.columns == MainKeys
            && FullName in r.cells && r.cells[FullName] == Str(cleanedName)
            && forall i :: 1 <= i < |MainKeys| ==>
                 MainKeys[i] in r.cells && r.cells[MainKeys[i]] == Field(payload, PayloadFields[i])
  {
    MainKeysDistinct();
    TableLengths();
    TableRecord(MainKeys, PayloadFields, payload, Str(cleanedName));
  }

  /** Some rows of the renaming table. */
  lemma RenamedFields()
    ensures Name(MainKeys[0]) == "full_name" && PayloadFields[0] == "fullName"
    ensures Name(MainKeys[9]) == "cemetery_city" && PayloadFields[9] == "cemeteryCityName"
    ensures Name(MainKeys[19]) == "memorial_url" && PayloadFields[19] == "linkToShare"
    ensures Name(MainKeys[26]) == "cemetery_id" && PayloadFields[26] == "memorialCemeteryId"
  {
  }

  /** Step 4 as a whole. Cleaning the full name parses the payload's
      `fullName` as markup and strips its prefix: clean gives the text left,
      or None when the parser raises. A value that is not a string cannot be
      parsed at all. */
  function NormalizeFields(payload: Payload, clean: string -> Option<string>): (r: Option<Row<Column>>)
    ensures r.Some? ==> WellFormed(r.value)
  {
    match Field(payload, "fullName")
    case Str(raw) =>
      (match clean(raw)
       case Some(name) => Some(MainFields(payload, name))
       case None => None)
    case _ => None
  }

  /** Step 4 fails exactly when `fullName` is not a string or its markup is
      rejected, and otherwise yields the table's record for the cleaned
      name. */
  lemma NormalizeFieldsOutcome(payload: Payload, clean: string -> Option<string>)
    ensures NormalizeFields(payload, clean).None? <==>
              !Field(payload, "fullName").Str? || clean(Field(payload, "fullName").text).None?
    ensures NormalizeFields(payload, clean).Some? ==>
              NormalizeFields(payload, clean)
                == Some(MainFields(payload, clean(Field(payload, "fullName").text).value))
    ensures NormalizeFields(payload, clean).Some? ==>
              var r := NormalizeFields(payload, clean).value;
              && WellFormed(r) && r.columns == MainKeys
              && r.cells[MainKeys[0]] == Str(clean(Field(payload, "fullName").text).value)
  {
    if NormalizeFields(payload, clean).Some? {
      MainFieldsTable(payload, clean(Field(payload, "fullName").text).value);
    }
  }
}
