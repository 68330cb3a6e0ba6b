/** The LDAP configuration of appy/shared/ldap_connector.py: the server URI,
    the search filter for users (section 3 of RFC 4515), the attributes
    asked for, the mapping of LDAP data onto Appy user fields, and the
    creation or update of the local copy of an LDAP user. */
module LdapConnectors {
  import opened Wrappers
  import opened Text

  // ---------------------------------------------------------------------------
  // Python values
  // ---------------------------------------------------------------------------

  /** Python truth of an optional string: `None` and `''` are false. */
  predicate Truthy(o: Option<string>) {
    o.Some? && o.value != []
  }

  /** `'%s' % o`: `None` is written `None`. */
  function Str(o: Option<string>): string {
    if o.None? then "None" else o.value
  }

  /** `str(n)` and `'%d' % n` for any integer. */
  lemma IntToStringRoundTrip(n: int)
    ensures IsIntLiteral(IntToString(n)) && IntValue(IntToString(n)) == n
  {
    NatToStringRoundTrip(if n < 0 then -n else n);
    if n < 0 {
      var s := IntToString(n);
      assert s[1..] == NatToString(-n);
      assert !IsDigit(s[0]);
    }
  }

  // ---------------------------------------------------------------------------
  // The server URI
  // ---------------------------------------------------------------------------

  const LDAP_SCHEME := "ldap://"
  const DEFAULT_PORT := 389

  /** `self.port or 389`: an unset or zero port means the default one. */
  function EffectivePort(port: Option<int>): (p: int)
    ensures port.None? || port.value == 0 ==> p == DEFAULT_PORT
    ensures port.Some? && port.value != 0 ==> p == port.value
  {
    if port.None? || port.value == 0 then DEFAULT_PORT else port.value
  }

  function UriHead(server: string): string {
    LDAP_SCHEME + server + ":"
  }

  /** `ldap://<server>:<port>`; the text after the colon reads back as the
      port in use. */
  function ServerUri(server: string, port: Option<int>): (r: string)
    ensures StartsWith(r, UriHead(server))
    ensures var t := r[|UriHead(server)|..]; IsIntLiteral(t) && IntValue(t) == EffectivePort(port)
  {
    var p := EffectivePort(port);
    IntToStringRoundTrip(p);
    var r := UriHead(server) + IntToString(p);
    assert r[|UriHead(server)|..] == IntToString(p);
    r
  }

  // ---------------------------------------------------------------------------
  // Filters (section 3 of RFC 4515)
  // ---------------------------------------------------------------------------

  /** One `(name=value)` assertion. */
  function Item(n: string, v: string): string {
    "(" + n + "=" + v + ")"
  }

  function Items(values: seq<(string, string)>): string {
    if values == [] then [] else Item(values[0].0, values[0].1) + Items(values[1..])
  }

  /** LdapConnector.getFilter: the conjunction `(&(n=v)...)` of the pairs,
      in order; the values are not escaped. */
  function GetFilter(values: seq<(string, string)>): string {
    "(&" + Items(values) + ")"
  }

  /** A name or value without the characters that delimit an assertion. */
  predicate Plain(s: string) {
    '(' !in s && ')' !in s
  }

  predicate PlainPairs(values: seq<(string, string)>) {
    forall i :: 0 <= i < |values| ==> Plain(values[i].0) && '=' !in values[i].0 && Plain(values[i].1)
  }

  /** Reading a sequence of assertions back: each runs from `(` to the
      next `)` and splits at its first `=`. */
  function ParseItems(s: string): Option<seq<(string, string)>>
    decreases |s|
  {
    if s == [] then Some([])
    else if s[0] != '(' then None
    else
      var j := IndexOf(s, ')');
      if j == |s| then None
      else
        var body := s[1..j];
        var e := IndexOf(body, '=');
        if e == |body| then None
        else
          match ParseItems(s[j + 1..])
          case None => None
          case Some(rest) => Some([(body[..e], body[e + 1..])] + rest)
  }

  function ParseFilter(f: string): Option<seq<(string, string)>> {
    if |f| >= 3 && f[..2] == "(&" && f[|f| - 1] == ')' then ParseItems(f[2..|f| - 1]) else None
  }

  lemma {:induction false} IndexOfConcat(a: string, b: string, c: char)
    requires c !in a
    ensures IndexOf(a + b, c) == |a| + IndexOf(b, c)
    decreases |a|
  {
    if a != [] {
      assert (a + b)[0] == a[0] && (a + b)[1..] == a[1..] + b;
      assert c !in a[1..];
      IndexOfConcat(a[1..], b, c);
    } else {
      assert a + b == b;
    }
  }

  lemma ItemSplit(n: string, v: string, rest: string)
    requires Plain(n) && '=' !in n && Plain(v)
    ensures var s := Item(n, v) + rest;
            var j := |n| + |v| + 2;
            IndexOf(s, ')') == j && s[1..j] == n + "=" + v && s[j + 1..] == rest &&
            IndexOf(s[1..j], '=') == |n|
  {
    var s := Item(n, v) + rest;
    assert s == ("(" + n + "=" + v) + (")" + rest);
    IndexOfConcat("(" + n + "=" + v, ")" + rest, ')');
    assert s[1..|n| + |v| + 2] == n + ("=" + v);
    IndexOfConcat(n, "=" + v, '=');
  }

  /** One plain assertion in front of more text is read back, then the rest. */
  lemma ParseItemsStep(n: string, v: string, rest: string)
    requires Plain(n) && '=' !in n && Plain(v)
    ensures ParseItems(Item(n, v) + rest) ==
            match ParseItems(rest) case None => None case Some(r) => Some([(n, v)] + r)
  {
    ItemSplit(n, v, rest);
    var body := n + "=" + v;
    assert body[..|n|] == n && body[|n| + 1..] == v;
    var s := Item(n, v) + rest;
    assert s[0] == '(';
  }

  /** Plain pairs are read back from their filter. */
  lemma {:induction false} ItemsRoundTrip(values: seq<(string, string)>)
    requires PlainPairs(values)
    ensures ParseItems(Items(values)) == Some(values)
    decreases |values|
  {
    if values != [] {
      var (n, v) := values[0];
      var tail := values[1..];
      assert PlainPairs(tail) by {
        forall i | 0 <= i < |tail|
          ensures Plain(tail[i].0) && '=' !in tail[i].0 && Plain(tail[i].1)
        {
          assert tail[i] == values[i + 1];
        }
      }
      ItemsRoundTrip(tail);
      ParseItemsStep(n, v, Items(tail));
      assert [(n, v)] + tail == values;
    }
  }

  lemma FilterRoundTrip(values: seq<(string, string)>)
    requires PlainPairs(values)
    ensures ParseFilter(GetFilter(values)) == Some(values)
  {
    var f := GetFilter(values);
    assert f[..2] == "(&" && f[2..|f| - 1] == Items(values);
    ItemsRoundTrip(values);
  }

  /** As written, a value holding `)(` is indistinguishable from two
      assertions: the login `x)(uid=*` yields the filter of the two pairs
      `uid=x` and `uid=*`. */
  lemma GetFilterInjection()
    ensures GetFilter([("uid", "x)(uid=*")]) == GetFilter([("uid", "x"), ("uid", "*")])
  {
    assert [("uid", "x"), ("uid", "*")][1..] == [("uid", "*")];
  }

  /** Section 3 of RFC 4515: a parenthesis, a backslash or NUL in an
      assertion value is written as a backslash and two hex digits. The star
      is left as is: the synchronisation of all users relies on `a*` being a
      wildcard. */
  function EscapeChar(c: char): string {
    if c == '(' then "\\28"
    else if c == ')' then "\\29"
    else if c == '\\' then "\\5c"
    else if c == 0 as char then "\\00"
    else [c]
  }

  function Escape(v: string): (r: string)
    ensures Plain(r)
  {
    if v == [] then [] else EscapeChar(v[0]) + Escape(v[1..])
  }

  function UnescapeCode(h: string): Option<char> {
    if h == "28" then Some('(')
    else if h == "29" then Some(')')
    else if h == "5c" then Some('\\')
    else if h == "00" then Some(0 as char)
    else None
  }

  function Unescape(s: string): string
    decreases |s|
  {
    if s == [] then []
    else if s[0] == '\\' && |s| >= 3 && UnescapeCode(s[1..3]).Some? then [UnescapeCode(s[1..3]).value] + Unescape(s[3..])
    else [s[0]] + Unescape(s[1..])
  }

  lemma UnescapeStep(c: char, rest: string)
    ensures Unescape(EscapeChar(c) + rest) == [c] + Unescape(rest)
  {
    var s := EscapeChar(c) + rest;
    if c in "()\\" || c == 0 as char {
      assert s[1..3] == EscapeChar(c)[1..3] && s[3..] == rest;
    } else {
      assert s[1..] == rest;
    }
  }

  lemma {:induction false} EscapeRoundTrip(v: string)
    ensures Unescape(Escape(v)) == v
    decreases |v|
  {
    if v != [] {
      UnescapeStep(v[0], Escape(v[1..]));
      EscapeRoundTrip(v[1..]);
    }
  }

  function EscapedPairs(values: seq<(string, string)>): (r: seq<(string, string)>)
    ensures |r| == |values|
    ensures forall i :: 0 <= i < |values| ==> r[i] == (values[i].0, Escape(values[i].1))
  {
    if values == [] then [] else [(values[0].0, Escape(values[0].1))] + EscapedPairs(values[1..])
  }

  /** getFilter with the values escaped. */
  function EscapedFilter(values: seq<(string, string)>): string {
    GetFilter(EscapedPairs(values))
  }

  /** With escaped values every pair stays one assertion: the filter reads
      back as the same names with values that unescape to the given ones. */
  lemma EscapedFilterRoundTrip(values: seq<(string, string)>)
    requires forall i :: 0 <= i < |values| ==> Plain(values[i].0) && '=' !in values[i].0
    ensures var r := ParseFilter(EscapedFilter(values));
            r.Some? && |r.value| == |values| &&
            forall i :: 0 <= i < |values| ==> r.value[i].0 == values[i].0 && Unescape(r.value[i].1) == values[i].1
  {
    var e := EscapedPairs(values);
    FilterRoundTrip(e);
    forall i | 0 <= i < |values|
      ensures Unescape(e[i].1) == values[i].1
    {
      EscapeRoundTrip(values[i].1);
    }
  }

  // ---------------------------------------------------------------------------
  // The attributes of a user
  // ---------------------------------------------------------------------------

  /** The five LdapConfig fields naming LDAP attributes. */
  datatype AttrNames = AttrNames(login: Option<string>, email: Option<string>, fullName: Option<string>,
                                 firstName: Option<string>, lastName: Option<string>)

  /** `getattr(self, name)` for the names of `ldapAttributes`. */
  function Lookup(a: AttrNames, name: string): Option<string> {
    if name == "loginAttribute" then a.login
    else if name == "emailAttribute" then a.email
    else if name == "fullNameAttribute" then a.fullName
    else if name == "firstNameAttribute" then a.firstName
    else if name == "lastNameAttribute" then a.lastName
    else None
  }

  /** LdapConfig.ldapAttributes: config field and the Appy user field it
      feeds (none for the login). */
  const LDAP_ATTRIBUTES: seq<(string, Option<string>)> :=
    [("loginAttribute", None), ("emailAttribute", Some("email")), ("fullNameAttribute", Some("title")),
     ("firstNameAttribute", Some("firstName")), ("lastNameAttribute", Some("name"))]

  /** The LDAP names asked for: the set ones, in table order. */
  function Wanted(a: AttrNames, table: seq<(string, Option<string>)>): seq<string> {
    if table == [] then []
    else
      var o := Lookup(a, table[|table| - 1].0);
      Wanted(a, table[..|table| - 1]) + (if Truthy(o) then [o.value] else [])
  }

  lemma {:induction false} WantedMembers(a: AttrNames, table: seq<(string, Option<string>)>)
    ensures forall x :: x in Wanted(a, table) <==>
              exists i :: 0 <= i < |table| && Lookup(a, table[i].0) == Some(x) && x != []
  {
    if table != [] {
      var init := table[..|table| - 1];
      WantedMembers(a, init);
      assert forall i :: 0 <= i < |init| ==> init[i] == table[i];
    }
  }

  /** A value of an LDAP entry: python-ldap gives lists of strings. */
  datatype LdapValue = Single(s: string) | Many(items: seq<string>)

  predicate Present(v: LdapValue) {
    match v
    case Single(s) => s != []
    case Many(items) => items != []
  }

  /** `value[0]` for a list. */
  function First(v: LdapValue): string
    requires Present(v)
  {
    match v
    case Single(s) => s
    case Many(items) => items[0]
  }

  /** Whether table row `row` brings a value, and the LDAP name it reads. */
  predicate Brings(a: AttrNames, row: (string, Option<string>), data: map<string, LdapValue>) {
    row.1.Some? && row.1.value != [] && Truthy(Lookup(a, row.0)) &&
    Lookup(a, row.0).value in data && Present(data[Lookup(a, row.0).value])
  }

  function Brought(a: AttrNames, row: (string, Option<string>), data: map<string, LdapValue>): string
    requires Brings(a, row, data)
  {
    First(data[Lookup(a, row.0).value])
  }

  /** The user params after the rows of `table`. */
  function Params(a: AttrNames, table: seq<(string, Option<string>)>, data: map<string, LdapValue>): map<string, string> {
    if table == [] then map[]
    else
      var before := Params(a, table[..|table| - 1], data);
      var row := table[|table| - 1];
      if Brings(a, row, data) then before[row.1.value := Brought(a, row, data)] else before
  }

  predicate DistinctTargets(table: seq<(string, Option<string>)>) {
    forall i, j :: 0 <= i < j < |table| && table[i].1.Some? && table[j].1.Some? ==> table[i].1.value != table[j].1.value
  }

  /** With distinct Appy names, an Appy field is set exactly when its row
      brings a value, and then to that value; nothing else is set. */
  lemma {:induction false} ParamsSpec(a: AttrNames, table: seq<(string, Option<string>)>, data: map<string, LdapValue>)
    requires DistinctTargets(table)
    ensures var r := Params(a, table, data);
            (forall i :: 0 <= i < |table| && table[i].1.Some? ==>
               (table[i].1.value in r <==> Brings(a, table[i], data)) &&
               (Brings(a, table[i], data) ==> r[table[i].1.value] == Brought(a, table[i], data))) &&
            (forall k :: k in r ==> exists i :: 0 <= i < |table| && table[i].1 == Some(k))
  {
    if table != [] {
      var n := |table| - 1;
      var init, row := table[..n], table[n];
      assert DistinctTargets(init) by {
        forall i, j | 0 <= i < j < |init| && init[i].1.Some? && init[j].1.Some?
          ensures init[i].1.value != init[j].1.value
        {
          assert init[i] == table[i] && init[j] == table[j];
        }
      }
      ParamsSpec(a, init, data);
      var before := Params(a, init, data);
      var r := Params(a, table, data);
      assert r == if Brings(a, row, data) then before[row.1.value := Brought(a, row, data)] else before;
      forall i | 0 <= i < |table| && table[i].1.Some?
        ensures (table[i].1.value in r <==> Brings(a, table[i], data)) &&
                (Brings(a, table[i], data) ==> r[table[i].1.value] == Brought(a, table[i], data))
      {
        if i < n {
          assert table[i] == init[i];
          if row.1.Some? {
            assert table[i].1.value != row.1.value;
          }
        }
      }
      forall k | k in r
        ensures exists i :: 0 <= i < |table| && table[i].1 == Some(k)
      {
        if k in before {
          var i :| 0 <= i < |init| && init[i].1 == Some(k);
          assert table[i] == init[i];
        } else {
          assert table[n].1 == Some(k);
        }
      }
    }
  }

  lemma AttributeTableDistinct()
    ensures DistinctTargets(LDAP_ATTRIBUTES)
  {
  }

  // ---------------------------------------------------------------------------
  // Local users
  // ---------------------------------------------------------------------------

  /** An entry of `userMap`: the optional `groups` and `roles`. */
  datatype Privileges = Privileges(groups: Option<seq<string>>, roles: Option<seq<string>>)

  /** The outcome of setLocalUser: `created`, `updated` or None. */
  datatype Status = Created | Updated | Untouched

  /** Whether some attribute from the LDAP differs from the stored one (an
      attribute the user lacks counts as different). */
  predicate Differs(current: map<string, string>, attrs: map<string, string>) {
    exists k :: k in attrs && (k !in current || current[k] != attrs[k])
  }

  /** The update loop of setLocalUser: every LDAP attribute is stored, and
      the flag records whether one differed. */
  method UpdateAttributes(current: map<string, string>, attrs: map<string, string>) returns (updated: map<string, string>, changed: bool)
    ensures updated.Keys == current.Keys + attrs.Keys
    ensures forall k :: k in attrs ==> updated[k] == attrs[k]
    ensures forall k :: k in current && k !in attrs ==> updated[k] == current[k]
    ensures changed <==> Differs(current, attrs)
  {
    updated := current;
    changed := false;
    var todo := attrs.Keys;
    while todo != {}
      invariant todo <= attrs.Keys
      invariant updated.Keys == current.Keys + (attrs.Keys - todo)
      invariant forall k :: k in attrs && k !in todo ==> updated[k] == attrs[k]
      invariant forall k :: k in current && (k !in attrs || k in todo) ==> updated[k] == current[k]
      invariant changed <==> exists k :: k in attrs && k !in todo && (k !in current || current[k] != attrs[k])
      decreases todo
    {
      var name :| name in todo;
      if name !in updated || attrs[name] != updated[name] {
        updated := updated[name := attrs[name]];
        changed := true;
      }
      todo := todo - {name};
    }
  }

  /** The local copy of an LDAP user. */
  class LocalUser {
    const login: string
    const source: string
    var attributes: map<string, string>
    var password: Option<string>
    var groups: seq<string>
    var roles: seq<string>

    /** tool.create('users', login=..., source='ldap', **attrs). */
    constructor(login: string, attrs: map<string, string>)
      ensures this.login == login && source == "ldap" && attributes == attrs
      ensures password == None && groups == [] && roles == []
    {
      this.login := login;
      source := "ldap";
      attributes := attrs;
      password := None;
      groups := [];
      roles := [];
    }
  }

  // ---------------------------------------------------------------------------
  // The configuration
  // ---------------------------------------------------------------------------

  class LdapConfig {
    var server: string
    var port: Option<int>
    var adminLogin: string
    var adminPassword: string
    var loginAttribute: Option<string>
    var emailAttribute: Option<string>
    var fullNameAttribute: Option<string>
    var firstNameAttribute: Option<string>
    var lastNameAttribute: Option<string>
    var userClasses: seq<string>
    var baseDn: string
    var scope: string
    var enabled: bool
    var userMap: map<string, Privileges>

    /** The defaults: no server nor port, login by `dn`, users of the
        classes `top` and `person` searched in the whole subtree. */
    constructor()
      ensures server == "" && port == None && adminLogin == "" && adminPassword == ""
      ensures loginAttribute == Some("dn") && emailAttribute == None && fullNameAttribute == None
      ensures firstNameAttribute == None && lastNameAttribute == None
      ensures userClasses == ["top", "person"] && baseDn == "" && scope == "SUBTREE"
      ensures enabled && userMap == map[]
    {
      server := "";
      port := None;
      adminLogin := "";
      adminPassword := "";
      loginAttribute := Some("dn");
      emailAttribute := None;
      fullNameAttribute := None;
      firstNameAttribute := None;
      lastNameAttribute := None;
      userClasses := ["top", "person"];
      baseDn := "";
      scope := "SUBTREE";
      enabled := true;
      userMap := map[];
    }

    function Names(): AttrNames
      reads this
    {
      AttrNames(loginAttribute, emailAttribute, fullNameAttribute, firstNameAttribute, lastNameAttribute)
    }

    /** getServerUri, also the representation of the config. */
    function GetServerUri(): (r: string)
      reads this
      ensures StartsWith(r, UriHead(server))
      ensures var t := r[|UriHead(server)|..]; IsIntLiteral(t) && IntValue(t) == EffectivePort(port)
    {
      ServerUri(server, port)
    }

    /** getUserFilterValues: the login assertion first when a login is
        given, then one `objectClass` assertion per user class. */
    method GetUserFilterValues(login: Option<string>) returns (res: seq<(string, string)>)
      ensures var k := if Truthy(login) then 1 else 0;
              |res| == k + |userClasses| &&
              (Truthy(login) ==> res[0] == (Str(loginAttribute), login.value)) &&
              forall i :: 0 <= i < |userClasses| ==> res[k + i] == ("objectClass", userClasses[i])
    {
      res := if Truthy(login) then [(Str(loginAttribute), login.value)] else [];
      var k := |res|;
      for i := 0 to |userClasses|
        invariant |res| == k + i
        invariant Truthy(login) ==> res[0] == (Str(loginAttribute), login.value)
        invariant forall j :: 0 <= j < i ==> res[k + j] == ("objectClass", userClasses[j])
      {
        res := res + [("objectClass", userClasses[i])];
      }
    }

    /** getUserAttributes: the LDAP names of the set attributes, in table
        order. */
    method GetUserAttributes() returns (res: seq<string>)
      ensures res == Wanted(Names(), LDAP_ATTRIBUTES)
      ensures forall x :: x in res <==>
                exists i :: 0 <= i < |LDAP_ATTRIBUTES| && Lookup(Names(), LDAP_ATTRIBUTES[i].0) == Some(x) && x != []
    {
      res := [];
      for i := 0 to |LDAP_ATTRIBUTES|
        invariant res == Wanted(Names(), LDAP_ATTRIBUTES[..i])
      {
        var o := Lookup(Names(), LDAP_ATTRIBUTES[i].0);
        if Truthy(o) {
          res := res + [o.value];
        }
        assert LDAP_ATTRIBUTES[..i + 1][..i] == LDAP_ATTRIBUTES[..i];
      }
      assert LDAP_ATTRIBUTES[..|LDAP_ATTRIBUTES|] == LDAP_ATTRIBUTES;
      WantedMembers(Names(), LDAP_ATTRIBUTES);
    }

    /** getUserParams: the Appy fields filled from the LDAP entry, each with
        the first value of its LDAP attribute. */
    method GetUserParams(ldapData: map<string, LdapValue>) returns (res: map<string, string>)
      ensures res == Params(Names(), LDAP_ATTRIBUTES, ldapData)
      ensures forall i :: 0 <= i < |LDAP_ATTRIBUTES| && LDAP_ATTRIBUTES[i].1.Some? ==>
                (LDAP_ATTRIBUTES[i].1.value in res <==> Brings(Names(), LDAP_ATTRIBUTES[i], ldapData)) &&
                (Brings(Names(), LDAP_ATTRIBUTES[i], ldapData) ==> res[LDAP_ATTRIBUTES[i].1.value] == Brought(Names(), LDAP_ATTRIBUTES[i], ldapData))
      ensures forall k :: k in res ==> exists i :: 0 <= i < |LDAP_ATTRIBUTES| && LDAP_ATTRIBUTES[i].1 == Some(k)
    {
      res := map[];
      for i := 0 to |LDAP_ATTRIBUTES|
        invariant res == Params(Names(), LDAP_ATTRIBUTES[..i], ldapData)
      {
        var row := LDAP_ATTRIBUTES[i];
        assert LDAP_ATTRIBUTES[..i + 1][..i] == LDAP_ATTRIBUTES[..i];
        if row.1.Some? && row.1.value != [] {
          var ldapName := Lookup(Names(), row.0);
          if Truthy(ldapName) && ldapName.value in ldapData && Present(ldapData[ldapName.value]) {
            res := res[row.1.value := First(ldapData[ldapName.value])];
          }
        }
      }
      assert LDAP_ATTRIBUTES[..|LDAP_ATTRIBUTES|] == LDAP_ATTRIBUTES;
      AttributeTableDistinct();
      ParamsSpec(Names(), LDAP_ATTRIBUTES, ldapData);
    }

    /** setLocalUser: an existing user takes every attribute from the LDAP
        (and the password, when one is given) and is `updated` exactly when
        an attribute differed; otherwise a user is created with the groups
        and roles of its `userMap` entry. */
    method SetLocalUser(existing: LocalUser?, attrs: map<string, string>, login: string, password: Option<string>)
      returns (user: LocalUser, status: Status)
      modifies existing
      ensures existing != null ==>
                user == existing && user.attributes.Keys == old(existing.attributes).Keys + attrs.Keys &&
                (forall k :: k in attrs ==> user.attributes[k] == attrs[k]) &&
                (forall k :: k in old(existing.attributes) && k !in attrs ==> user.attributes[k] == old(existing.attributes)[k]) &&
                user.password == (if Truthy(password) then password else old(existing.password)) &&
                user.groups == old(existing.groups) && user.roles == old(existing.roles) &&
                status == (if Differs(old(existing.attributes), attrs) then Updated else Untouched)
      ensures existing == null ==>
                fresh(user) && status == Created && user.login == login && user.source == "ldap" &&
                user.attributes == attrs && user.password == (if Truthy(password) then password else None) &&
                user.groups == (if login in userMap && userMap[login].groups.Some? then userMap[login].groups.value else []) &&
                user.roles == (if login in userMap && userMap[login].roles.Some? then userMap[login].roles.value else [])
    {
      if existing != null {
        user := existing;
        var updated, changed := UpdateAttributes(user.attributes, attrs);
        user.attributes := updated;
        status := if changed then Updated else Untouched;
        if Truthy(password) {
          user.password := password;
        }
      } else {
        user := new LocalUser(login, attrs);
        if Truthy(password) {
          user.password := password;
        }
        status := Created;
        if login in userMap {
          var privileges := userMap[login];
          if privileges.groups.Some? {
            user.groups := privileges.groups.value;
          }
          if privileges.roles.Some? {
            user.roles := privileges.roles.value;
          }
        }
      }
    }
  }
}
