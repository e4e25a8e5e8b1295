/** The keys the scraper ever stores in `main_fields`, each with the column
    header it becomes in the written table. The record's keys are drawn
    from this fixed set, so they are modelled as an enumeration. */
module Columns {
  import opened Wrappers

  datatype Column =
    // step 4, in the order of the `main_fields` literal
    | FullName | FirstName | LastName | BirthYear | DeathYear
    | DeathDate | DeathMonth | DeathDay | CemeteryName | CemeteryCity
    | CemeteryCounty | CemeteryState | CemeteryCountry | CemeteryLatitude
    | CemeteryLongitude | MemorialId | PersonId | MemorialContributorId
    | SponsorContributorId | MemorialUrl | IsFamous | IsCenotaph
    | HasGravePhoto | CoverPhotoId | CoverPhotoUrl | DefaultPhotoUrl
    | CemeteryId
    // steps 5 to 7, in the order they are set
    | Biography | BioBy | Plot | Inscription
    | FamilyParents | FamilySpouses | FamilyChildren

  /** The dict key, which is also the column header. */
  function Name(c: Column): string {
    match c
    case FullName => "full_name"
    case FirstName => "first_name"
    case LastName => "last_name"
    case BirthYear => "birth_year"
    case DeathYear => "death_year"
    case DeathDate => "death_date"
    case DeathMonth => "death_month"
    case DeathDay => "death_day"
    case CemeteryName => "cemetery_name"
    case CemeteryCity => "cemetery_city"
    case CemeteryCounty => "cemetery_county"
    case CemeteryState => "cemetery_state"
    case CemeteryCountry => "cemetery_country"
    case CemeteryLatitude => "cemetery_latitude"
    case CemeteryLongitude => "cemetery_longitude"
    case MemorialId => "memorial_id"
    case PersonId => "person_id"
    case MemorialContributorId => "memorial_contributor_id"
    case SponsorContributorId => "sponsor_contributor_id"
    case MemorialUrl => "memorial_url"
    case IsFamous => "is_famous"
    case IsCenotaph => "is_cenotaph"
    case HasGravePhoto => "has_grave_photo"
    case CoverPhotoId => "cover_photo_id"
    case CoverPhotoUrl => "cover_photo_url"
    case DefaultPhotoUrl => "default_photo_url"
    case CemeteryId => "cemetery_id"
    case Biography => "biography"
    case BioBy => "bio_by"
    case Plot => "Plot"
    case Inscription => "inscription"
    case FamilyParents => "family_parents"
    case FamilySpouses => "family_spouses"
    case FamilyChildren => "family_children"
  }

  /** Recovers the key from its header by its length, first character and
      next-to-last character, which tell the 34 headers apart. */
  function KeyOf(header: string): Option<Column> {
    if |header| < 2 then None
    else
      match (|header|, header[0], header[|header| - 2])
      case (9, 'f', 'm') => Some(FullName)
      case (10, 'f', 'm') => Some(FirstName)
      case (9, 'l', 'm') => Some(LastName)
      case (10, 'b', 'a') => Some(BirthYear)
      case (10, 'd', 'a') => Some(DeathYear)
      case (10, 'd', 't') => Some(DeathDate)
      case (11, 'd', 't') => Some(DeathMonth)
      case (9, 'd', 'a') => Some(DeathDay)
      case (13, 'c', 'm') => Some(CemeteryName)
      case (13, 'c', 't') => Some(CemeteryCity)
      case (15, 'c', 't') => Some(CemeteryCounty)
      case (14, 'c', 't') => Some(CemeteryState)
      case (16, 'c', 'r') => Some(CemeteryCountry)
      case (17, 'c', 'd') => Some(CemeteryLatitude)
      case (18, 'c', 'd') => Some(CemeteryLongitude)
      case (11, 'm', 'i') => Some(MemorialId)
      case (9, 'p', 'i') => Some(PersonId)
      case (23, 'm', 'i') => Some(MemorialContributorId)
      case (22, 's', 'i') => Some(SponsorContributorId)
      case (12, 'm', 'r') => Some(MemorialUrl)
      case (9, 'i', 'u') => Some(IsFamous)
      case (11, 'i', 'p') => Some(IsCenotaph)
      case (15, 'h', 't') => Some(HasGravePhoto)
      case (14, 'c', 'i') => Some(CoverPhotoId)
      case (15, 'c', 'r') => Some(CoverPhotoUrl)
      case (17, 'd', 'r') => Some(DefaultPhotoUrl)
      case (11, 'c', 'i') => Some(CemeteryId)
      case (9, 'b', 'h') => Some(Biography)
      case (6, 'b', 'b') => Some(BioBy)
      case (4, 'P', 'o') => Some(Plot)
      case (11, 'i', 'o') => Some(Inscription)
      case (14, 'f', 't') => Some(FamilyParents)
      case (14, 'f', 'e') => Some(FamilySpouses)
      case (15, 'f', 'e') => Some(FamilyChildren)
      case _ => None
  }

  /** The position of a key in the declaration. */
  function Index(c: Column): nat {
    match c
    case FullName => 0
    case FirstName => 1
    case LastName => 2
    case BirthYear => 3
    case DeathYear => 4
    case DeathDate => 5
    case DeathMonth => 6
    case DeathDay => 7
    case CemeteryName => 8
    case CemeteryCity => 9
    case CemeteryCounty => 10
    case CemeteryState => 11
    case CemeteryCountry => 12
    case CemeteryLatitude => 13
    case CemeteryLongitude => 14
    case MemorialId => 15
    case PersonId => 16
    case MemorialContributorId => 17
    case SponsorContributorId => 18
    case MemorialUrl => 19
    case IsFamous => 20
    case IsCenotaph => 21
    case HasGravePhoto => 22
    case CoverPhotoId => 23
    case CoverPhotoUrl => 24
    case DefaultPhotoUrl => 25
    case CemeteryId => 26
    case Biography => 27
    case BioBy => 28
    case Plot => 29
    case Inscription => 30
    case FamilyParents => 31
    case FamilySpouses => 32
    case FamilyChildren => 33
  }

  // KeyOf inverts Name on declarations 0 to 8.
  lemma KeyOfNameIn1(c: Column)
    requires 0 <= Index(c) < 9
    ensures KeyOf(Name(c)) == Some(c)
  {
  }

  // KeyOf inverts Name on declarations 9 to 17.
  lemma KeyOfNameIn2(c: Column)
    requires 9 <= Index(c) < 18
    ensures KeyOf(Name(c)) == Some(c)
  {
  }

  // KeyOf inverts Name on declarations 18 to 26.
  lemma KeyOfNameIn3(c: Column)
    requires 18 <= Index(c) < 27
    ensures KeyOf(Name(c)) == Some(c)
  {
  }

  // KeyOf inverts Name on declarations 27 to 33.
  lemma KeyOfNameIn4(c: Column)
    requires 27 <= Index(c) < 34
    ensures KeyOf(Name(c)) == Some(c)
  {
  }

  /** KeyOf inverts Name on every key. */
  lemma KeyOfName(c: Column)
    ensures KeyOf(Name(c)) == Some(c)
  {
    if Index(c) < 9 {
      KeyOfNameIn1(c);
    } else if Index(c) < 18 {
      KeyOfNameIn2(c);
    } else if Index(c) < 27 {
      KeyOfNameIn3(c);
    } else {
      KeyOfNameIn4(c);
    }
  }

  /** Distinct keys have distinct headers, so the enumeration stands for the
      dict's string keys without merging any two of them. */
  lemma NameInjective(a: Column, b: Column)
    requires a != b
    ensures Name(a) != Name(b)
  {
    KeyOfName(a);
    KeyOfName(b);
  }
}
