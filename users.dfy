/** The user records of users.json, the template context `render_signatures`
    builds from one record, and the name of the file that record's signature is
    written to. */
module Users {
  import opened Wrappers
  import opened Text

  /** The string fields of a record that the context reads. */
  datatype Field =
    | DisplayName | GivenName | Surname | UserPrincipalName | JobTitle | Department
    | OfficeLocation | MobilePhone | CompanyName | WebsiteUrl | Pronouns | PhotoUrl
    | StreetAddress | City | State | PostalCode

  /** The JSON key of a field. */
  function FieldName(f: Field): string {
    match f
    case DisplayName => "DisplayName"
    case GivenName => "GivenName"
    case Surname => "Surname"
    case UserPrincipalName => "UserPrincipalName"
    case JobTitle => "JobTitle"
    case Department => "Department"
    case OfficeLocation => "OfficeLocation"
    case MobilePhone => "MobilePhone"
    case CompanyName => "CompanyName"
    case WebsiteUrl => "WebsiteUrl"
    case Pronouns => "Pronouns"
    case PhotoUrl => "PhotoUrl"
    case StreetAddress => "StreetAddress"
    case City => "City"
    case State => "State"
    case PostalCode => "PostalCode"
  }

  /** One object of users.json: the fields it has, and its `BusinessPhones` list
      when it has one. */
  datatype User = User(fields: map<Field, string>, businessPhones: Option<seq<string>>)

  /** `user.get(key, '')`. */
  function Get(u: User, f: Field): string {
    if f in u.fields then u.fields[f] else ""
  }

  /** A template variable: a copied field under its template name, or the
      joined phone list. */
  datatype Key = Copied(field: Field) | BusinessPhones

  /** The template name of a key. */
  function KeyName(k: Key): string {
    match k
    case BusinessPhones => "business_phones"
    case Copied(f) =>
      match f
      case DisplayName => "display_name"
      case GivenName => "given_name"
      case Surname => "surname"
      case UserPrincipalName => "email"
      case JobTitle => "job_title"
      case Department => "department"
      case OfficeLocation => "office_location"
      case MobilePhone => "mobile_phone"
      case CompanyName => "company_name"
      case WebsiteUrl => "website_url"
      case Pronouns => "pronouns"
      case PhotoUrl => "photo_url"
      case StreetAddress => "street_address"
      case City => "city"
      case State => "state"
      case PostalCode => "postal_code"
  }

  /** The keyword arguments the template is rendered with. */
  type Context = map<Key, string>

  /** The seventeen keys of a context. */
  const AllKeys: set<Key> := {
    Copied(DisplayName), Copied(GivenName), Copied(Surname), Copied(UserPrincipalName),
    Copied(JobTitle), Copied(Department), Copied(OfficeLocation), BusinessPhones,
    Copied(MobilePhone), Copied(CompanyName), Copied(WebsiteUrl), Copied(Pronouns),
    Copied(PhotoUrl), Copied(StreetAddress), Copied(City), Copied(State), Copied(PostalCode)
  }

  /** The value a record gives one key: a copied field, `''` when the record
      lacks it, or the phone list joined with ", " (empty when missing). */
  function ValueOf(u: User, k: Key): string {
    match k
    case Copied(f) => Get(u, f)
    case BusinessPhones => Join(u.businessPhones.GetOr([]), ", ")
  }

  /** The context of one record. */
  function ContextOf(u: User): (ctx: Context)
    ensures ctx.Keys == AllKeys
  {
    map k | k in AllKeys :: ValueOf(u, k)
  }

  /** A context has seventeen keys. */
  lemma ContextHasSeventeenKeys(u: User)
    ensures |ContextOf(u).Keys| == 17
  {
    KeyCount();
  }

  /** The position of a key in the context `render_signatures` builds. */
  function KeyIndex(k: Key): nat {
    match k
    case Copied(DisplayName) => 0
    case Copied(GivenName) => 1
    case Copied(Surname) => 2
    case Copied(UserPrincipalName) => 3
    case Copied(JobTitle) => 4
    case Copied(Department) => 5
    case Copied(OfficeLocation) => 6
    case BusinessPhones => 7
    case Copied(MobilePhone) => 8
    case Copied(CompanyName) => 9
    case Copied(WebsiteUrl) => 10
    case Copied(Pronouns) => 11
    case Copied(PhotoUrl) => 12
    case Copied(StreetAddress) => 13
    case Copied(City) => 14
    case Copied(State) => 15
    case Copied(PostalCode) => 16
  }

  /** The keys in the order `render_signatures` lists them. */
  const KeyOrder: seq<Key> := [
    Copied(DisplayName), Copied(GivenName), Copied(Surname), Copied(UserPrincipalName),
    Copied(JobTitle), Copied(Department), Copied(OfficeLocation), BusinessPhones,
    Copied(MobilePhone), Copied(CompanyName), Copied(WebsiteUrl), Copied(Pronouns),
    Copied(PhotoUrl), Copied(StreetAddress), Copied(City), Copied(State), Copied(PostalCode)
  ]

  lemma KeyCount()
    ensures |AllKeys| == 17
  {
    assert forall i :: 0 <= i < |KeyOrder| ==> KeyIndex(KeyOrder[i]) == i;
    DistinctCount(KeyOrder);
    assert AllKeys == set k | k in KeyOrder;
  }

  /** A list whose keys sit at their own positions holds as many keys as it is long. */
  lemma {:induction false} DistinctCount(keys: seq<Key>)
    requires forall i :: 0 <= i < |keys| ==> KeyIndex(keys[i]) == i
    ensures |set k | k in keys| == |keys|
  {
    if keys != [] {
      var init := keys[..|keys| - 1];
      var last := keys[|keys| - 1];
      DistinctCount(init);
      forall i | 0 <= i < |init|
        ensures init[i] != last
      {
        assert KeyIndex(keys[i]) == i;
      }
      assert (set k | k in keys) == (set k | k in init) + {last};
    }
  }

  /** Every copied key holds the record's field when present and `''` when absent. */
  lemma ContextCopiesFields(u: User)
    ensures forall f :: Copied(f) in ContextOf(u)
    ensures forall f :: f in u.fields ==> ContextOf(u)[Copied(f)] == u.fields[f]
    ensures forall f :: f !in u.fields ==> ContextOf(u)[Copied(f)] == ""
  {
    forall f: Field
      ensures Copied(f) in AllKeys
    {
      match f
      case DisplayName =>
      case GivenName =>
      case Surname =>
      case UserPrincipalName =>
      case JobTitle =>
      case Department =>
      case OfficeLocation =>
      case MobilePhone =>
      case CompanyName =>
      case WebsiteUrl =>
      case Pronouns =>
      case PhotoUrl =>
      case StreetAddress =>
      case City =>
      case State =>
      case PostalCode =>
    }
  }

  /** `business_phones` is `''` for a missing or empty list, the phone itself for
      one phone, and otherwise holds one ", " between neighbours: with no comma
      inside a phone, it holds one comma fewer than there are phones. */
  lemma ContextJoinsPhones(u: User)
    ensures u.businessPhones.None? || u.businessPhones == Some([]) ==> ContextOf(u)[BusinessPhones] == ""
    ensures u.businessPhones.Some? && |u.businessPhones.value| == 1 ==>
              ContextOf(u)[BusinessPhones] == u.businessPhones.value[0]
    ensures u.businessPhones.Some? && |u.businessPhones.value| > 0 &&
            (forall i :: 0 <= i < |u.businessPhones.value| ==> ',' !in u.businessPhones.value[i]) ==>
              Occurrences(ContextOf(u)[BusinessPhones], ',') == |u.businessPhones.value| - 1
  {
    if u.businessPhones.Some? && |u.businessPhones.value| > 0 &&
       (forall i :: 0 <= i < |u.businessPhones.value| ==> ',' !in u.businessPhones.value[i]) {
      JoinCommaCount(u.businessPhones.value);
    }
  }

  lemma {:induction false} JoinCommaCount(phones: seq<string>)
    requires |phones| > 0
    requires forall i :: 0 <= i < |phones| ==> ',' !in phones[i]
    ensures Occurrences(Join(phones, ", "), ',') == |phones| - 1
  {
    NoOccurrences(phones[0], ',');
    if |phones| > 1 {
      JoinCommaCount(phones[1..]);
      OccurrencesConcat(phones[0], ", ", ',');
      OccurrencesConcat(phones[0] + ", ", Join(phones[1..], ", "), ',');
    }
  }

  /** A missing field renders exactly like an empty one. */
  lemma MissingIsEmpty(u: User, f: Field)
    requires f !in u.fields
    ensures ContextOf(User(u.fields[f := ""], u.businessPhones)) == ContextOf(u)
  {
    var v := User(u.fields[f := ""], u.businessPhones);
    assert forall k :: ValueOf(v, k) == ValueOf(u, k);
  }

  /** The file a record's signature is written to, inside the output directory:
      its `UserPrincipalName` followed by ".html". */
  function FileName(u: User): string {
    Get(u, UserPrincipalName) + ".html"
  }

  /** `f"{context['email']}.html"`: the file name is read from the context's
      `email` key. */
  lemma FileNameFromContext(u: User)
    ensures FileName(u) == ContextOf(u)[Copied(UserPrincipalName)] + ".html"
  {
    assert Copied(UserPrincipalName) in AllKeys;
  }

  /** Two records are written to the same file exactly when they have the same
      `UserPrincipalName`, a missing one counting as `''`. */
  lemma FileNameInjective(u: User, v: User)
    ensures FileName(u) == FileName(v) <==> Get(u, UserPrincipalName) == Get(v, UserPrincipalName)
    ensures FileName(u)[..|FileName(u)| - 5] == Get(u, UserPrincipalName)
    ensures FileName(u)[|FileName(u)| - 5..] == ".html"
  {
    var a, b := Get(u, UserPrincipalName), Get(v, UserPrincipalName);
    assert FileName(u) == a + ".html" && FileName(v) == b + ".html";
    assert (a + ".html")[..|a|] == a;
    assert (b + ".html")[..|b|] == b;
  }

  /** What the data file holds, as far as `load_users` can tell. */
  datatype UsersFile =
    | NoFile                        // `os.path.isfile(DATA_PATH)` is false
    | Unparsable                    // `json.load` raised
    | Records(users: seq<User>)

  /** The three ways `load_users` exits the program. */
  datatype LoadError = DataFileMissing | DataUnreadable | NoUsers

  /** `load_users`: the records, or the reason the program exits. */
  function LoadUsers(file: UsersFile): (r: Result<seq<User>, LoadError>)
    ensures r.Ok? <==> file.Records? && |file.users| > 0
    ensures r.Ok? ==> r.value == file.users
    ensures r == Err(DataFileMissing) <==> file.NoFile?
    ensures r == Err(DataUnreadable) <==> file.Unparsable?
  {
    match file
    case NoFile => Err(DataFileMissing)
    case Unparsable => Err(DataUnreadable)
    case Records(users) => if users == [] then Err(NoUsers) else Ok(users)
  }

  /** The seventeen template names are distinct, so the context passes
      seventeen different keyword arguments. */
  lemma KeyNamesDistinct(a: Key, b: Key)
    requires a != b
    ensures KeyName(a) != KeyName(b)
  {
  }

  /** The sixteen JSON keys read are distinct. */
  lemma FieldNamesDistinct(a: Field, b: Field)
    requires a != b
    ensures FieldName(a) != FieldName(b)
  {
  }
}
