/** The record and template of the generator's own test, worked through the
    context mapping and `render_signatures`. */
module RendererExamples {
  import opened Wrappers
  import opened Users
  import opened Renderer

  /** The one record of the test's users.json. */
  const TestUser: User := User(
    map[
      DisplayName := "Test User",
      GivenName := "Test",
      Surname := "User",
      UserPrincipalName := "test.user@example.com",
      JobTitle := "Tester",
      Department := "QA",
      OfficeLocation := "HQ",
      MobilePhone := "555-555-5555",
      CompanyName := "TestCo",
      WebsiteUrl := "https://example.com",
      Pronouns := "they/them",
      PhotoUrl := ""
    ],
    Some(["123-456-7890"]))

  /** The test's template `<div>{{ display_name }}</div>`; an undefined variable
      renders as nothing. */
  function DisplayNameTemplate(ctx: Context): string {
    "<div>" + (if Copied(DisplayName) in ctx then ctx[Copied(DisplayName)] else "") + "</div>"
  }

  lemma TestUserFileName()
    ensures FileName(TestUser) == "test.user@example.com.html"
  {
    var fields := TestUser.fields;
    assert fields[UserPrincipalName] == "test.user@example.com";
    assert Get(TestUser, UserPrincipalName) + ".html" == "test.user@example.com.html";
  }

  /** The test record's context: the display name copied, the one phone as the
      phone list, and the city it lacks empty. */
  lemma TestUserDisplayName()
    ensures ContextOf(TestUser)[Copied(DisplayName)] == "Test User"
  {
    assert Get(TestUser, DisplayName) == "Test User";
  }

  lemma TestUserPhones()
    ensures ContextOf(TestUser)[BusinessPhones] == "123-456-7890"
  {
    ContextJoinsPhones(TestUser);
  }

  lemma TestUserCity()
    ensures ContextOf(TestUser)[Copied(City)] == ""
  {
    assert City !in TestUser.fields;
  }

  /** The test template renders a record's display name between the tags. */
  lemma DisplayNameRendered(u: User)
    ensures DisplayNameTemplate(ContextOf(u)) == "<div>" + Get(u, DisplayName) + "</div>"
  {
    ContextCopiesFields(u);
  }

  lemma TestUserRendered()
    ensures DisplayNameTemplate(ContextOf(TestUser)) == "<div>" + "Test User" + "</div>"
  {
    TestUserDisplayName();
    DisplayNameRendered(TestUser);
  }

  lemma SignatureText()
    ensures "<div>" + "Test User" + "</div>" == "<div>Test User</div>"
    ensures "<div>Test User</div>"[5..14] == "Test User"
  {
  }

  /** Rendering record 1 of the test data into an empty directory writes
      `test.user@example.com.html`, and its content holds "Test User". */
  lemma TestUserSignature(results: nat -> WriteResult)
    requires results(0) == Written
    ensures Batch(map[], [TestUser], [1], true, DisplayNameTemplate, results) ==
            (Completed, map["test.user@example.com.html" := "<div>Test User</div>"])
    ensures "<div>Test User</div>"[5..14] == "Test User"
  {
    TestUserFileName();
    TestUserRendered();
    SignatureText();
    assert Resolved(1, [1]) == 1;
    assert AfterWrites(map[], [TestUser], [1], 1, DisplayNameTemplate, results) ==
           WriteOne(map[], TestUser, DisplayNameTemplate, Written);
  }
}
