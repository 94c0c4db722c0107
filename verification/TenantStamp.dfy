/** The statement that stamps the current tenant on a database connection, and what running it does. */
module TenantStamp {

  datatype Option<+T> = None | Some(value: T)

  /** The tenant of the code path that acquires a connection; either id may be missing. */
  datatype Context = Context(organizationId: Option<string>, userId: Option<string>)

  /** The session settings that row-level security reads. */
  datatype Settings = Settings(role: string, tenant: string, user: string)

  const APP_DB_ROLE := "ashniva_app"

  predicate IsHex(c: char) {
    '0' <= c <= '9' || 'a' <= c <= 'f' || 'A' <= c <= 'F'
  }

  predicate IsDashAt(i: nat) {
    i == 8 || i == 13 || i == 18 || i == 23
  }

  /** Five groups of 8, 4, 4, 4 and 12 hexadecimal digits. */
  predicate IsUuid(s: string) {
    |s| == 36 && forall i :: 0 <= i < 36 ==> if IsDashAt(i) then s[i] == '-' else IsHex(s[i])
  }

  function LowerHex(c: char): char {
    if 'A' <= c <= 'Z' then c + 32 as char else c
  }

  function Lower(s: string): string {
    seq(|s|, i requires 0 <= i < |s| => LowerHex(s[i]))
  }

  /** Only well-formed ids are used; anything else means "no tenant". */
  function SafeUuid(value: Option<string>): string {
    if value.Some? && IsUuid(value.value) then Lower(value.value) else ""
  }

  function ContextOf(context: Option<Context>): Context {
    if context.Some? then context.value else Context(None, None)
  }

  const SET_ROLE := "SET ROLE " + APP_DB_ROLE + "; "
  const BEFORE_TENANT := "SELECT set_config('app.tenant_id', '"
  const BEFORE_USER := "', false), set_config('app.user_id', '"
  const AFTER_USER := "', false)"

  function StampStatement(context: Option<Context>, useAppRole: bool): string {
    var tenant := SafeUuid(ContextOf(context).organizationId);
    var user := SafeUuid(ContextOf(context).userId);
    (if useAppRole then SET_ROLE else "") + (BEFORE_TENANT + (tenant + (BEFORE_USER + (user + AFTER_USER))))
  }

  // ------------------------------------------------------------------ what the database does with it

  /** A quoted literal as the database reads it: up to the first quote that is not doubled.  Returns the
      text of the literal and what follows from the closing quote on. */
  function ReadLiteral(s: string): Option<(string, string)> {
    if s == "" then None
    else if s[0] == '\'' then
      if |s| >= 2 && s[1] == '\'' then
        match ReadLiteral(s[2..])
        case None => None
        case Some((text, rest)) => Some((['\''] + text, rest))
      else Some(("", s))
    else
      match ReadLiteral(s[1..])
      case None => None
      case Some((text, rest)) => Some(([s[0]] + text, rest))
  }

  function After(prefix: string, s: string): Option<string> {
    if prefix <= s then Some(s[|prefix|..]) else None
  }

  /** Running a stamp on a session: the optional role switch, then the two settings. */
  function Execute(settings: Settings, sql: string): Option<Settings> {
    var role := if After(SET_ROLE, sql).Some? then APP_DB_ROLE else settings.role;
    var select := if After(SET_ROLE, sql).Some? then After(SET_ROLE, sql).value else sql;
    match After(BEFORE_TENANT, select)
    case None => None
    case Some(atTenant) =>
      match ReadLiteral(atTenant)
      case None => None
      case Some((tenant, rest)) =>
        match After(BEFORE_USER, rest)
        case None => None
        case Some(atUser) =>
          match ReadLiteral(atUser)
          case None => None
          case Some((user, rest')) =>
            if rest' == AFTER_USER then Some(Settings(role, tenant, user)) else None
  }

  lemma SafeUuidHasNoQuote(value: Option<string>)
    ensures '\'' !in SafeUuid(value)
    ensures SafeUuid(value) == "" || IsUuid(SafeUuid(value))
  {
    if value.Some? && IsUuid(value.value) {
      var s := value.value;
      forall i | 0 <= i < 36 ensures Lower(s)[i] == LowerHex(s[i]) && LowerHex(s[i]) != '\'' {
        if IsDashAt(i) {
          assert s[i] == '-';
        } else {
          assert IsHex(s[i]);
        }
      }
    }
  }

  lemma {:induction false} LiteralIsRead(text: string, rest: string)
    requires '\'' !in text
    requires |rest| >= 2 && rest[0] == '\'' && rest[1] != '\''
    ensures ReadLiteral(text + rest) == Some((text, rest))
  {
    if text == "" {
      assert text + rest == rest;
    } else {
      assert (text + rest)[1..] == text[1..] + rest;
      LiteralIsRead(text[1..], rest);
      assert [text[0]] + text[1..] == text;
    }
  }

  lemma AfterPrefix(prefix: string, s: string)
    ensures After(prefix, prefix + s) == Some(s)
  {
    assert (prefix + s)[|prefix|..] == s;
  }

  lemma SelectIsNotRole(s: string)
    ensures After(SET_ROLE, BEFORE_TENANT + s).None?
  {
    var t := BEFORE_TENANT + s;
    assert t[2] == BEFORE_TENANT[2] == 'L' && SET_ROLE[2] == 'T';
  }

  // ------------------------------------------------------------------ what a session must show

  /** 8, 4, 4, 4 and 12 hexadecimal digits in either case, with dashes between. */
  predicate IsWellFormed(id: string) {
    && |id| == 36
    && forall i :: 0 <= i < 36 ==>
         if i in {8, 13, 18, 23} then id[i] == '-'
         else '0' <= id[i] <= '9' || 'a' <= id[i] <= 'f' || 'A' <= id[i] <= 'F'
  }

  /** The setting is the id with its letters in lower case; without a well-formed id it is empty. */
  predicate Shows(setting: string, id: Option<string>) {
    if id.Some? && IsWellFormed(id.value) then
      && |setting| == 36
      && forall i :: 0 <= i < 36 ==>
           setting[i] == if 'A' <= id.value[i] <= 'F' then (id.value[i] as int + 32) as char else id.value[i]
    else
      setting == ""
  }

  lemma UuidIsWellFormed(s: string)
    ensures IsUuid(s) <==> IsWellFormed(s)
  {
    if |s| == 36 {
      forall i | 0 <= i < 36
        ensures (if IsDashAt(i) then s[i] == '-' else IsHex(s[i])) <==>
          if i in {8, 13, 18, 23} then s[i] == '-'
          else '0' <= s[i] <= '9' || 'a' <= s[i] <= 'f' || 'A' <= s[i] <= 'F'
      {
      }
      hide IsHex, IsDashAt;
    }
  }

  lemma SafeUuidShows(id: Option<string>)
    ensures Shows(SafeUuid(id), id)
  {
    if id.Some? {
      UuidIsWellFormed(id.value);
    }
  }

  function OrganizationOf(context: Option<Context>): Option<string> {
    if context.Some? then context.value.organizationId else None
  }

  function UserOf(context: Option<Context>): Option<string> {
    if context.Some? then context.value.userId else None
  }

  /** The same id, but perhaps for the case of its letters. */
  predicate SameButCase(a: string, b: string) {
    |a| == |b| && forall i :: 0 <= i < |a| ==>
      a[i] == b[i] || ('A' <= a[i] <= 'F' && b[i] as int == a[i] as int + 32) || ('A' <= b[i] <= 'F' && a[i] as int == b[i] as int + 32)
  }

  /** Main: two sessions show the same setting exactly for ids that differ at most in letter case. */
  lemma SettingsTellIdsApart(x: string, a: string, y: string, b: string)
    requires IsWellFormed(a) && IsWellFormed(b) && Shows(x, Some(a)) && Shows(y, Some(b))
    ensures x != "" && y != "" && (x == y <==> SameButCase(a, b))
  {
    forall i | 0 <= i < 36
      ensures x[i] == y[i] <==>
        a[i] == b[i] || ('A' <= a[i] <= 'F' && b[i] as int == a[i] as int + 32) || ('A' <= b[i] <= 'F' && a[i] as int == b[i] as int + 32)
    {
    }
    if x == y {
      assert forall i :: 0 <= i < 36 ==> x[i] == y[i];
    }
    if SameButCase(a, b) {
      assert forall i :: 0 <= i < 36 ==> x[i] == y[i];
    }
  }

  /** Main: the statement as it is sent, the two ids in place. */
  lemma StampIsWritten(context: Option<Context>, useAppRole: bool) returns (tenant: string, user: string)
    ensures Shows(tenant, OrganizationOf(context)) && Shows(user, UserOf(context))
    ensures StampStatement(context, useAppRole) ==
      (if useAppRole then "SET ROLE ashniva_app; " else "") +
      ("SELECT set_config('app.tenant_id', '" + (tenant + ("', false), set_config('app.user_id', '" + (user + "', false)"))))
  {
    hide SafeUuid, Shows;
    tenant, user := SafeUuid(OrganizationOf(context)), SafeUuid(UserOf(context));
    SafeUuidShows(OrganizationOf(context));
    SafeUuidShows(UserOf(context));
    assert SET_ROLE == "SET ROLE ashniva_app; ";
  }

  /** Main: running the stamp sets the two ids of the captured context, in lower case and read back unchanged, or empty
      settings where there is none that is well formed; and the role if the pool switches it. */
  lemma StampSetsContext(settings: Settings, context: Option<Context>, useAppRole: bool)
    ensures var s := Execute(settings, StampStatement(context, useAppRole));
      && s.Some? && Shows(s.value.tenant, OrganizationOf(context)) && Shows(s.value.user, UserOf(context))
      && s.value.role == if useAppRole then "ashniva_app" else settings.role
  {
    hide SafeUuid, Shows, Execute, StampStatement;
    StampIsExecuted(settings, context, useAppRole);
    SafeUuidShows(OrganizationOf(context));
    SafeUuidShows(UserOf(context));
  }

  /** The two literals are read back unchanged. */
  lemma StampIsExecuted(settings: Settings, context: Option<Context>, useAppRole: bool)
    ensures Execute(settings, StampStatement(context, useAppRole))
            == Some(Settings(if useAppRole then APP_DB_ROLE else settings.role,
                             SafeUuid(ContextOf(context).organizationId),
                             SafeUuid(ContextOf(context).userId)))
  {
    hide SafeUuid, ReadLiteral, After;
    var tenant, user := SafeUuid(ContextOf(context).organizationId), SafeUuid(ContextOf(context).userId);
    SafeUuidHasNoQuote(ContextOf(context).organizationId);
    SafeUuidHasNoQuote(ContextOf(context).userId);
    var s3 := user + AFTER_USER;
    var s2 := BEFORE_USER + s3;
    var s1 := tenant + s2;
    var s0 := BEFORE_TENANT + s1;
    LiteralIsRead(user, AFTER_USER);
    assert s2[0] == '\'' && s2[1] == ',';
    LiteralIsRead(tenant, s2);
    AfterPrefix(BEFORE_USER, s3);
    AfterPrefix(BEFORE_TENANT, s1);
    if useAppRole {
      AfterPrefix(SET_ROLE, s0);
    } else {
      SelectIsNotRole(s1);
      assert "" + s0 == s0;
    }
  }
}
