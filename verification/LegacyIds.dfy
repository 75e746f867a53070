/**
 The test harness's conversion of fully qualified schema and credential definition ids, such as
 did:indy:bcovrin:test:PDTK/anoncreds/v0/SCHEMA/name/1.0, to the legacy form.
 */
module LegacyIds {
  import opened Options
  import opened Strings

  /** What stands between the slashes after the last colon. */
  function Fields(id: string): seq<string> {
    var parts := Split(id, ':');
    Split(parts[|parts| - 1], '/')
  }

  /** None where the source raises IndexError. */
  function LegacySchemaId(id: string): Option<string> {
    var f := Fields(id);
    if |f| < 6 then None else Some(f[0] + ":2:" + f[4] + ":" + f[5])
  }

  function LegacyCredDefId(id: string): Option<string> {
    var f := Fields(id);
    if |f| < 6 then None else Some(f[0] + ":3:" + "CL" + ":" + f[4] + ":" + f[5])
  }

  lemma {:induction false} SplitKeepsFree(s: string, separator: char, c: char)
    requires c !in s
    ensures forall p | p in Split(s, separator) :: c !in p
  {
    if s == "" {
    } else {
      SplitKeepsFree(s[1..], separator, c);
      assert s == [s[0]] + s[1..];
      assert forall p | p in Split(s[1..], separator)[1..] :: p in Split(s[1..], separator);
      assert Split(s[1..], separator)[0] in Split(s[1..], separator);
    }
  }

  lemma FieldsAreFree(id: string)
    ensures forall f | f in Fields(id) :: ':' !in f
  {
    var parts := Split(id, ':');
    SplitKeepsFree(parts[|parts| - 1], '/', ':');
  }

  lemma JoinFour(a: string, b: string, c: string, d: string)
    ensures Join([a, b, c, d], ':') == a + ":" + b + ":" + c + ":" + d
  {
    assert [a, b, c, d][1..] == [b, c, d] && [b, c, d][1..] == [c, d] && [c, d][1..] == [d];
    assert Join([c, d], ':') == c + [':'] + d;
    assert Join([b, c, d], ':') == b + [':'] + Join([c, d], ':');
  }

  lemma JoinFive(a: string, b: string, c: string, d: string, e: string)
    ensures Join([a, b, c, d, e], ':') == a + ":" + b + ":" + c + ":" + d + ":" + e
  {
    assert [a, b, c, d, e][1..] == [b, c, d, e];
    JoinFour(b, c, d, e);
  }

  lemma SchemaText(issuer: string, name: string, version: string)
    ensures issuer + ":2:" + name + ":" + version == issuer + ":" + "2" + ":" + name + ":" + version
  {
  }

  lemma CredDefText(issuer: string, schema: string, tag: string)
    ensures issuer + ":3:" + "CL" + ":" + schema + ":" + tag
         == issuer + ":" + "3" + ":" + "CL" + ":" + schema + ":" + tag
  {
  }

  /** A legacy schema id falls apart into its issuer, name and version again. */
  lemma SchemaParts(id: string)
    ensures LegacySchemaId(id).None? <==> |Fields(id)| < 6
    ensures LegacySchemaId(id).Some? ==>
              Split(LegacySchemaId(id).value, ':') == [Fields(id)[0], "2", Fields(id)[4], Fields(id)[5]]
  {
    var f := Fields(id);
    if |f| >= 6 {
      FieldsAreFree(id);
      assert f[0] in f && f[4] in f && f[5] in f;
      JoinFour(f[0], "2", f[4], f[5]);
      SplitJoin([f[0], "2", f[4], f[5]], ':');
      SchemaText(f[0], f[4], f[5]);
    }
  }

  /** The same for a credential definition; its fifth part is the tag that the check for duplicates compares. */
  lemma CredDefParts(id: string)
    ensures LegacyCredDefId(id).None? <==> |Fields(id)| < 6
    ensures LegacyCredDefId(id).Some? ==>
              Split(LegacyCredDefId(id).value, ':') == [Fields(id)[0], "3", "CL", Fields(id)[4], Fields(id)[5]]
  {
    var f := Fields(id);
    if |f| >= 6 {
      FieldsAreFree(id);
      assert f[0] in f && f[4] in f && f[5] in f;
      JoinFive(f[0], "3", "CL", f[4], f[5]);
      SplitJoin([f[0], "3", "CL", f[4], f[5]], ':');
      CredDefText(f[0], f[4], f[5]);
    }
  }

  /**
   Two ids have the same legacy form exactly when they agree in those three fields; a schema and a
   credential definition never do.
   */
  lemma ConvertedAlikeIff(a: string, b: string)
    requires |Fields(a)| >= 6 && |Fields(b)| >= 6
    ensures LegacySchemaId(a) == LegacySchemaId(b)
            <==> (Fields(a)[0] == Fields(b)[0] && Fields(a)[4] == Fields(b)[4] && Fields(a)[5] == Fields(b)[5])
    ensures LegacyCredDefId(a) == LegacyCredDefId(b)
            <==> (Fields(a)[0] == Fields(b)[0] && Fields(a)[4] == Fields(b)[4] && Fields(a)[5] == Fields(b)[5])
    ensures LegacySchemaId(a) != LegacyCredDefId(b)
  {
    SchemaParts(a);
    SchemaParts(b);
    CredDefParts(a);
    CredDefParts(b);
    var s, t := Split(LegacySchemaId(a).value, ':'), Split(LegacySchemaId(b).value, ':');
    assert s[0] == Fields(a)[0] && s[2] == Fields(a)[4] && s[3] == Fields(a)[5];
    assert t[0] == Fields(b)[0] && t[2] == Fields(b)[4] && t[3] == Fields(b)[5];
    var c, d := Split(LegacyCredDefId(a).value, ':'), Split(LegacyCredDefId(b).value, ':');
    assert c[0] == Fields(a)[0] && c[3] == Fields(a)[4] && c[4] == Fields(a)[5];
    assert d[0] == Fields(b)[0] && d[3] == Fields(b)[4] && d[4] == Fields(b)[5];
    assert |s| == 4 && |d| == 5;
  }

  /** A qualified id: any namespace, and parts free of colons and slashes. */
  function Qualified(namespace: string, parts: seq<string>): string {
    namespace + ":" + Join(parts, '/')
  }

  lemma {:induction false} JoinAppend(parts: seq<string>, last: string, separator: char)
    requires parts != []
    ensures Join(parts + [last], separator) == Join(parts, separator) + [separator] + last
  {
    assert (parts + [last])[1..] == parts[1..] + [last];
    if |parts| > 1 {
      JoinAppend(parts[1..], last, separator);
    }
  }

  lemma {:induction false} JoinIsFree(parts: seq<string>, separator: char, c: char)
    requires c != separator && forall p | p in parts :: c !in p
    ensures c !in Join(parts, separator)
  {
    if |parts| > 1 {
      JoinIsFree(parts[1..], separator, c);
      assert parts[0] in parts;
    }
  }

  /** For any namespace, the fields of a qualified id are its parts. */
  lemma FieldsOfQualified(namespace: string, parts: seq<string>)
    requires parts != [] && forall p | p in parts :: ':' !in p && '/' !in p
    ensures Fields(Qualified(namespace, parts)) == parts
  {
    var spaces, last := Split(namespace, ':'), Join(parts, '/');
    JoinIsFree(parts, '/', ':');
    JoinSplit(namespace, ':');
    JoinAppend(spaces, last, ':');
    SplitJoin(spaces + [last], ':');
    SplitJoin(parts, '/');
  }

  /**
   There and back: whatever the namespace, the legacy id holds issuer, name and version, and nothing
   else of the qualified id.
   */
  lemma RoundTrip(namespace: string, issuer: string, name: string, version: string)
    requires forall p | p in [issuer, name, version] :: ':' !in p && '/' !in p
    ensures var schema := LegacySchemaId(Qualified(namespace, [issuer, "anoncreds", "v0", "SCHEMA", name, version]));
            schema.Some? && Split(schema.value, ':') == [issuer, "2", name, version]
    ensures var parts := [issuer, "anoncreds", "v0", "CLAIM_DEF", name, version];
            var credDef := LegacyCredDefId(Qualified(namespace, parts));
            credDef.Some? && Split(credDef.value, ':') == [issuer, "3", "CL", name, version]
  {
    var schema := [issuer, "anoncreds", "v0", "SCHEMA", name, version];
    var credDef := [issuer, "anoncreds", "v0", "CLAIM_DEF", name, version];
    assert issuer in [issuer, name, version] && name in [issuer, name, version] && version in [issuer, name, version];
    FieldsOfQualified(namespace, schema);
    FieldsOfQualified(namespace, credDef);
    SchemaParts(Qualified(namespace, schema));
    CredDefParts(Qualified(namespace, credDef));
  }
}
