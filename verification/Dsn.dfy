/**
The data source name `[user[:password]@][net[(addr)]]/dbname[?params]`: the scans of its parser and
the names that survive being written and parsed.
*/
module Dsn {
  import opened Wrappers


  /** `params` is the query string as it stands; what it sets is not part of this model. */
  datatype Config = Config(user: string, passwd: string, net: string, addr: string, dbname: string, params: Option<string>)

  datatype Result = Ok(config: Config) | InvalidUnescaped | InvalidAddr | UnknownNetwork(net: string) | InvalidParams

  // ---------- The scans ----------

  /** Position of the last `c`, -1 when there is none. */
  function LastIndex(s: string, c: char): (k: int)
    ensures -1 <= k < |s| && (k >= 0 ==> s[k] == c) && forall i :: k < i < |s| ==> s[i] != c
  {
    if s == "" then -1 else if s[|s| - 1] == c then |s| - 1 else LastIndex(s[..|s| - 1], c)
  }

  /** Position of the first `c`, the length when there is none. */
  function FirstIndex(s: string, c: char): (k: nat)
    ensures k <= |s| && (k < |s| ==> s[k] == c) && forall i :: 0 <= i < k ==> s[i] != c
  {
    if s == "" || s[0] == c then 0 else 1 + FirstIndex(s[1..], c)
  }

  // ---------- The parser ----------

  function WithUser(cfg: Config, left: string): Config {
    var k := FirstIndex(left, ':');
    cfg.(user := left[..k], passwd := if k < |left| then left[k + 1..] else cfg.passwd)
  }

  function WithNet(cfg: Config, right: string): Result {
    var k := FirstIndex(right, '(');
    if k == |right| then Ok(cfg.(net := right))
    else if right[|right| - 1] != ')' then (if ')' in right[k + 1..] then InvalidUnescaped else InvalidAddr)
    else Ok(cfg.(net := right[..k], addr := right[k + 1..|right| - 1]))
  }

  /** What stands before the slash. */
  function ParseLeft(left: string): Result {
    var empty := Config("", "", "", "", "", None);
    if left == "" then Ok(empty)
    else
      var j := LastIndex(left, '@');
      WithNet(if j >= 0 then WithUser(empty, left[..j]) else empty, left[j + 1..])
  }

  /** What stands behind it. */
  function WithDb(cfg: Config, right: string, accepts: string -> bool): Result {
    var k := FirstIndex(right, '?');
    if k == |right| then Ok(cfg.(dbname := right))
    else if !accepts(right[k + 1..]) then InvalidParams
    else Ok(cfg.(dbname := right[..k], params := Some(right[k + 1..])))
  }

  function DefaultAddr(net: string): Option<string> {
    if net == "tcp" then Some("127.0.0.1:3306") else if net == "unix" then Some("/tmp/mysql.sock") else None
  }

  function WithDefaults(cfg: Config): Result {
    var net := if cfg.net == "" then "tcp" else cfg.net;
    if cfg.addr != "" then Ok(cfg.(net := net))
    else
      match DefaultAddr(net)
      case Some(addr) => Ok(cfg.(net := net, addr := addr))
      case None => UnknownNetwork(net)
  }

  /** `accepts` tells the query strings that `parseDSNParams` accepts. */
  function Parse(dsn: string, accepts: string -> bool): Result {
    var i := LastIndex(dsn, '/');
    if i < 0 then WithDefaults(Config("", "", "", "", "", None)) else ParseParts(dsn[..i], dsn[i + 1..], accepts)
  }

  function ParseParts(left: string, right: string, accepts: string -> bool): Result {
    match ParseLeft(left)
    case Ok(cfg) =>
      (match WithDb(cfg, right, accepts)
       case Ok(cfg2) => WithDefaults(cfg2)
       case e => e)
    case e => e
  }

  // ---------- The round trip ----------

  function Format(c: Config): string {
    c.user + ":" + c.passwd + "@" + c.net + "(" + c.addr + ")/" + c.dbname
    + match c.params { case Some(p) => "?" + p case None => "" }
  }

  /** Each field keeps clear of the characters that the scans stop at. */
  ghost predicate Clear(c: Config, accepts: string -> bool) {
    && ':' !in c.user
    && c.net != "" && '(' !in c.net && '@' !in c.net
    && c.addr != "" && '@' !in c.addr
    && '/' !in c.dbname && '?' !in c.dbname
    && (c.params.Some? ==> '/' !in c.params.value && accepts(c.params.value))
  }

  lemma LastIs(a: string, c: char, b: string)
    ensures LastIndex(a + [c] + b, c) >= |a|
    ensures LastIndex(a + [c] + b, c) == |a| <==> c !in b
  {
    var s, k := a + [c] + b, LastIndex(a + [c] + b, c);
    assert s[|a|] == c;
    if k > |a| {
      assert b[k - |a| - 1] == s[k];
    } else {
      forall i | 0 <= i < |b| ensures b[i] != c {
        assert s[|a| + 1 + i] == b[i];
      }
    }
  }

  lemma FirstIs(a: string, c: char, b: string)
    ensures FirstIndex(a + [c] + b, c) <= |a|
    ensures FirstIndex(a + [c] + b, c) == |a| <==> c !in a
  {
    var s, k := a + [c] + b, FirstIndex(a + [c] + b, c);
    assert s[|a|] == c;
    if k < |a| {
      assert a[k] == s[k];
    } else {
      forall i | 0 <= i < |a| ensures a[i] != c {
        assert s[i] == a[i];
      }
    }
  }

  lemma FirstNone(s: string, c: char)
    ensures FirstIndex(s, c) == |s| <==> c !in s
  {
  }

  /** The part behind the slash. */
  function Tail(c: Config): string { c.dbname + match c.params { case Some(p) => "?" + p case None => "" } }

  /** The part before it. */
  function Front(c: Config): string { c.user + ":" + c.passwd + "@" + (c.net + "(" + c.addr + ")") }

  lemma Shape(c: Config)
    ensures Format(c) == Front(c) + "/" + Tail(c)
  {
  }

  lemma DbBack(cfg: Config, c: Config, accepts: string -> bool)
    requires cfg.params == None
    ensures WithDb(cfg, Tail(c), accepts) == Ok(cfg.(dbname := c.dbname, params := c.params))
       <==> '?' !in c.dbname && (c.params.Some? ==> accepts(c.params.value))
  {
    match c.params
    case Some(p) =>
      FirstIs(c.dbname, '?', p);
      var k := FirstIndex(Tail(c), '?');
      assert Tail(c) == c.dbname + ['?'] + p;
      if k == |c.dbname| {
        assert Tail(c)[..k] == c.dbname && Tail(c)[k + 1..] == p;
      }
    case None =>
      assert Tail(c) == c.dbname;
      FirstNone(c.dbname, '?');
  }

  lemma UserBack(cfg: Config, user: string, passwd: string)
    ensures WithUser(cfg, user + ":" + passwd) == cfg.(user := user, passwd := passwd) <==> ':' !in user
  {
    var left := user + ":" + passwd;
    FirstIs(user, ':', passwd);
    if ':' !in user {
      assert left[..|user|] == user && left[|user| + 1..] == passwd;
    } else {
      assert |WithUser(cfg, left).user| < |user|;
    }
  }

  lemma NetBack(cfg: Config, net: string, addr: string)
    ensures WithNet(cfg, net + "(" + addr + ")") == Ok(cfg.(net := net, addr := addr)) <==> '(' !in net
  {
    var right := net + "(" + addr + ")";
    assert right == net + ['('] + (addr + ")");
    FirstIs(net, '(', addr + ")");
    var k := FirstIndex(right, '(');
    assert k < |right| && right[|right| - 1] == ')';
    if '(' !in net {
      assert right[..k] == net && right[k + 1..|right| - 1] == addr;
    } else {
      assert |WithNet(cfg, right).config.net| < |net|;
    }
  }

  lemma DbShape(cfg: Config, right: string, accepts: string -> bool)
    requires cfg.params == None && WithDb(cfg, right, accepts).Ok?
    ensures Tail(WithDb(cfg, right, accepts).config) == right
  {
    var k := FirstIndex(right, '?');
    if k < |right| {
      assert right == right[..k] + "?" + right[k + 1..];
    }
  }

  /** The last '@' before the slash is the one behind the password, or the password is read too long. */
  lemma AtBack(c: Config)
    ensures var left := Front(c);
            LastIndex(left, '@') >= |c.user + ":" + c.passwd| && left[..|c.user + ":" + c.passwd|] == c.user + ":" + c.passwd
    ensures LastIndex(Front(c), '@') == |c.user + ":" + c.passwd| <==> '@' !in c.net && '@' !in c.addr
    ensures Front(c)[|c.user + ":" + c.passwd| + 1..] == c.net + "(" + c.addr + ")"
  {
    var up, na := c.user + ":" + c.passwd, c.net + "(" + c.addr + ")";
    assert Front(c) == up + ['@'] + na;
    LastIs(up, '@', na);
    AtNone(c.net, c.addr);
  }

  lemma AtNone(net: string, addr: string)
    ensures '@' !in net + "(" + addr + ")" <==> '@' !in net && '@' !in addr
  {
    var na := net + "(" + addr + ")";
    forall i | 0 <= i < |net| ensures na[i] == net[i] {
    }
    forall i | 0 <= i < |addr| ensures na[|net| + 1 + i] == addr[i] {
    }
  }

  lemma LongerPassword(cfg: Config, c: Config, left: string)
    requires c.user + ":" + c.passwd < left
    ensures WithUser(cfg, left).user != c.user || WithUser(cfg, left).passwd != c.passwd
  {
    var more := left[|c.user| + 1..];
    assert left == c.user + [':'] + more;
    FirstIs(c.user, ':', more);
    if FirstIndex(left, ':') == |c.user| {
      assert |left[|c.user| + 1..]| > |c.passwd|;
    }
  }

  lemma FrontBack(c: Config)
    ensures ParseLeft(Front(c)) == Ok(Config(c.user, c.passwd, c.net, c.addr, "", None))
       <==> ':' !in c.user && '(' !in c.net && '@' !in c.net && '@' !in c.addr
    ensures var r := ParseLeft(Front(c));
            r.Ok? ==> r.config.dbname == "" && r.config.params == None && '(' !in r.config.net
    ensures var r := ParseLeft(Front(c));
            r.Ok? && r.config.user == c.user && r.config.passwd == c.passwd ==> ':' !in c.user && '@' !in c.net && '@' !in c.addr
  {
    var empty, left, up := Config("", "", "", "", "", None), Front(c), c.user + ":" + c.passwd;
    AtBack(c);
    var j := LastIndex(left, '@');
    if j == |up| {
      UserBack(empty, c.user, c.passwd);
      NetBack(WithUser(empty, up), c.net, c.addr);
    } else {
      assert up < left[..j];
      LongerPassword(empty, c, left[..j]);
    }
  }

  lemma DefaultsKeep(cfg: Config)
    ensures var r := WithDefaults(cfg);
            r.Ok? ==> && r.config == cfg.(net := r.config.net, addr := r.config.addr)
                      && r.config.net == (if cfg.net == "" then "tcp" else cfg.net)
                      && r.config.net != "" && r.config.addr != ""
    ensures cfg.net != "" && cfg.addr != "" ==> WithDefaults(cfg) == Ok(cfg)
  {
  }

  lemma SlashNone(c: Config)
    ensures '/' !in Tail(c) <==> '/' !in c.dbname && (c.params.Some? ==> '/' !in c.params.value)
  {
    forall i | 0 <= i < |c.dbname| ensures Tail(c)[i] == c.dbname[i] {
    }
    if c.params.Some? {
      forall i | 0 <= i < |c.params.value| ensures Tail(c)[|c.dbname| + 1 + i] == c.params.value[i] {
      }
    }
  }

  lemma SlashBack(c: Config)
    ensures LastIndex(Format(c), '/') >= |Front(c)|
    ensures LastIndex(Format(c), '/') == |Front(c)| <==> '/' !in c.dbname && (c.params.Some? ==> '/' !in c.params.value)
    ensures Format(c)[..|Front(c)|] == Front(c) && Format(c)[|Front(c)| + 1..] == Tail(c)
  {
    Shape(c);
    SlashNone(c);
    hide Front, Format, Tail, LastIndex;
    assert Format(c) == Front(c) + ['/'] + Tail(c);
    LastIs(Front(c), '/', Tail(c));
  }

  /** A configuration survives, whatever its password, exactly when its other fields keep clear of the scans. */
  lemma RoundTripIff(c: Config, accepts: string -> bool)
    ensures Parse(Format(c), accepts) == Ok(c) <==> Clear(c, accepts)
  {
    if Clear(c, accepts) {
      ClearReturns(c, accepts);
    }
    if Parse(Format(c), accepts) == Ok(c) {
      ReturnedIsClear(c, accepts);
    }
  }

  lemma ClearReturns(c: Config, accepts: string -> bool)
    requires Clear(c, accepts)
    ensures Parse(Format(c), accepts) == Ok(c)
  {
    SlashBack(c);
    FrontBack(c);
    hide Front, Tail, Format, ParseLeft, WithDb, WithDefaults;
    var cfg := Config(c.user, c.passwd, c.net, c.addr, "", None);
    DbBack(cfg, c, accepts);
    DefaultsKeep(c);
  }

  lemma ReturnedIsClear(c: Config, accepts: string -> bool)
    requires Parse(Format(c), accepts) == Ok(c)
    ensures Clear(c, accepts)
  {
    SlashBack(c);
    FrontBack(c);
    hide Front, Tail, Format, ParseLeft, WithDb, WithDefaults;
    var dsn, i := Format(c), LastIndex(Format(c), '/');
    var cfg := ParseLeft(dsn[..i]).config;
    ParsedLeft(dsn[..i]);
    var cfg2 := WithDb(cfg, dsn[i + 1..], accepts).config;
    DefaultsKeep(cfg2);
    DbShape(cfg, dsn[i + 1..], accepts);
    DbKeeps(cfg, dsn[i + 1..], accepts);
    assert Tail(cfg2) == Tail(c) by { SameTail(cfg2, c); }
    assert i == |Front(c)|;
    DbBack(cfg, c, accepts);
  }

  lemma SameTail(a: Config, b: Config)
    requires a.dbname == b.dbname && a.params == b.params
    ensures Tail(a) == Tail(b)
  {
  }

  lemma DbKeeps(cfg: Config, right: string, accepts: string -> bool)
    requires WithDb(cfg, right, accepts).Ok?
    ensures var cfg2 := WithDb(cfg, right, accepts).config; cfg2 == cfg.(dbname := cfg2.dbname, params := cfg2.params)
  {
  }

  lemma ParsedLeft(left: string)
    ensures ParseLeft(left).Ok? ==> ParseLeft(left).config.params == None && ParseLeft(left).config.dbname == ""
  {
    hide WithNet, WithUser, LastIndex;
    if left != "" {
      var empty, j := Config("", "", "", "", "", None), LastIndex(left, '@');
      if j >= 0 {
        UserKeeps(empty, left[..j]);
        NetKeeps(WithUser(empty, left[..j]), left[j + 1..]);
      } else {
        NetKeeps(empty, left[j + 1..]);
      }
    }
  }

  lemma UserKeeps(cfg: Config, left: string)
    ensures WithUser(cfg, left).params == cfg.params && WithUser(cfg, left).dbname == cfg.dbname
  {
    hide FirstIndex;
  }

  lemma NetKeeps(cfg: Config, right: string)
    ensures WithNet(cfg, right).Ok? ==>
              WithNet(cfg, right).config.params == cfg.params && WithNet(cfg, right).config.dbname == cfg.dbname
  {
    hide FirstIndex;
  }

  ghost function OnlyDb(dbname: string): Config { Config("", "", "", "", dbname, None) }

  /** Everything but the slash may be missing. */
  lemma DefaultsIff(dbname: string, accepts: string -> bool)
    ensures Parse("/" + dbname, accepts) == WithDefaults(OnlyDb(dbname)) <==> '/' !in dbname && '?' !in dbname
  {
    hide ParseParts, LastIndex, WithDefaults, OnlyDb;
    var dsn := "/" + dbname;
    assert dsn == [] + ['/'] + dbname;
    LastIs([], '/', dbname);
    var i := LastIndex(dsn, '/');
    DefaultsExist(dbname);
    assert i == 0 ==> dsn[..0] == "" && dsn[1..] == dbname;
    ShorterDb(dsn[..i], dsn[i + 1..], accepts);
    OnlyDbParts(dbname, accepts);
  }

  lemma OnlyDbParts(dbname: string, accepts: string -> bool)
    ensures ParseParts("", dbname, accepts) == WithDefaults(OnlyDb(dbname)) <==> '?' !in dbname
  {
    FirstNone(dbname, '?');
    DefaultsExist(dbname);
    var cfg := OnlyDb("");
    assert OnlyDb(dbname) == cfg.(dbname := dbname) && ParseLeft("") == Ok(cfg);
    hide WithDefaults, OnlyDb, FirstIndex, ParseLeft;
    if WithDb(cfg, dbname, accepts).Ok? {
      DefaultsKeep(WithDb(cfg, dbname, accepts).config);
    }
  }

  lemma DefaultsExist(dbname: string)
    ensures WithDefaults(OnlyDb(dbname)).Ok? && WithDefaults(OnlyDb(dbname)).config.dbname == dbname
  {
    AllDefaults(dbname);
    hide WithDefaults, DefaultAddr;
  }

  lemma AllDefaults(dbname: string)
    ensures WithDefaults(OnlyDb(dbname)) == Ok(Config("", "", "tcp", "127.0.0.1:3306", dbname, None))
  {
  }

  lemma ShorterDb(left: string, right: string, accepts: string -> bool)
    ensures ParseParts(left, right, accepts).Ok? ==> |ParseParts(left, right, accepts).config.dbname| <= |right|
  {
    hide ParseLeft, WithDefaults;
    if ParseLeft(left).Ok? && WithDb(ParseLeft(left).config, right, accepts).Ok? {
      DefaultsKeep(WithDb(ParseLeft(left).config, right, accepts).config);
    }
  }

  // ---------- Names with parts left out ----------

  /** `[user[:password]@][net][(addr)]/dbname[?params]` */
  datatype Name = Name(login: Option<Login>, net: string, addr: Option<string>, dbname: string, params: Option<string>)

  datatype Login = Login(user: string, passwd: Option<string>)

  function LoginPart(l: Login): string { l.user + match l.passwd { case Some(p) => ":" + p case None => "" } }

  function NetPart(n: Name): string { n.net + match n.addr { case Some(a) => "(" + a + ")" case None => "" } }

  function LeftPart(n: Name): string { match n.login { case Some(l) => LoginPart(l) + "@" + NetPart(n) case None => NetPart(n) } }

  function DbPart(n: Name): string { n.dbname + match n.params { case Some(p) => "?" + p case None => "" } }

  function Spelled(n: Name): string { LeftPart(n) + "/" + DbPart(n) }

  /** No part holds a character that a scan would stop at. */
  ghost predicate Plain(n: Name, accepts: string -> bool) {
    && (n.login.Some? ==> ':' !in n.login.value.user)
    && '(' !in n.net && '@' !in n.net && (n.addr.Some? ==> '@' !in n.addr.value)
    && '/' !in n.dbname && '?' !in n.dbname && (n.params.Some? ==> '/' !in n.params.value && accepts(n.params.value))
  }

  /** The meaning of a name: what is left out is empty, the network "tcp", and the address that of the network. */
  function Meaning(n: Name): Result {
    var user := if n.login.Some? then n.login.value.user else "";
    var passwd := if n.login.Some? && n.login.value.passwd.Some? then n.login.value.passwd.value else "";
    var net := if n.net == "" then "tcp" else n.net;
    var addr := if n.addr.Some? then n.addr.value else "";
    if addr != "" then Ok(Config(user, passwd, net, addr, n.dbname, n.params))
    else if net == "tcp" then Ok(Config(user, passwd, net, "127.0.0.1:3306", n.dbname, n.params))
    else if net == "unix" then Ok(Config(user, passwd, net, "/tmp/mysql.sock", n.dbname, n.params))
    else UnknownNetwork(net)
  }

  lemma LoginBack(cfg: Config, l: Login)
    requires ':' !in l.user && cfg.passwd == ""
    ensures WithUser(cfg, LoginPart(l)) == cfg.(user := l.user, passwd := if l.passwd.Some? then l.passwd.value else "")
  {
    match l.passwd
    case Some(p) =>
      assert LoginPart(l) == l.user + ":" + p;
      UserBack(cfg, l.user, p);
    case None =>
      FirstNone(l.user, ':');
      assert LoginPart(l) == l.user && l.user[..|l.user|] == l.user;
  }

  lemma NetPartBack(cfg: Config, n: Name)
    requires '(' !in n.net && cfg.addr == ""
    ensures WithNet(cfg, NetPart(n)) == Ok(cfg.(net := n.net, addr := if n.addr.Some? then n.addr.value else ""))
  {
    match n.addr
    case Some(a) =>
      assert NetPart(n) == n.net + "(" + a + ")";
      NetBack(cfg, n.net, a);
    case None =>
      FirstNone(n.net, '(');
      assert NetPart(n) == n.net;
  }

  lemma NoAtIn(n: Name)
    requires '@' !in n.net && (n.addr.Some? ==> '@' !in n.addr.value)
    ensures '@' !in NetPart(n)
  {
    match n.addr
    case Some(a) => AtNone(n.net, a);
    case None =>
  }

  lemma LastNone(s: string, c: char)
    requires c !in s
    ensures LastIndex(s, c) == -1
  {
  }

  lemma LeftBack(n: Name)
    requires (n.login.Some? ==> ':' !in n.login.value.user) && '(' !in n.net && '@' !in n.net
    requires n.addr.Some? ==> '@' !in n.addr.value
    ensures ParseLeft(LeftPart(n)) ==
              Ok(Config(if n.login.Some? then n.login.value.user else "",
                        if n.login.Some? && n.login.value.passwd.Some? then n.login.value.passwd.value else "",
                        n.net, if n.addr.Some? then n.addr.value else "", "", None))
  {
    var empty, left := Config("", "", "", "", "", None), LeftPart(n);
    NoAtIn(n);
    match n.login
    case Some(l) =>
      var up, na := LoginPart(l), NetPart(n);
      assert left == up + ['@'] + na;
      LastIs(up, '@', na);
      LoginBack(empty, l);
      hide LoginPart, NetPart, WithUser, WithNet, LastIndex;
      assert left[..|up|] == up && left[|up| + 1..] == na && left != "";
      NetPartBack(empty.(user := l.user, passwd := if l.passwd.Some? then l.passwd.value else ""), n);
    case None =>
      LastNone(left, '@');
      NetPartBack(empty, n);
      assert left[0..] == left;
  }

  lemma DbPartBack(cfg: Config, n: Name, accepts: string -> bool)
    requires '?' !in n.dbname && (n.params.Some? ==> accepts(n.params.value)) && cfg.params == None
    ensures WithDb(cfg, DbPart(n), accepts) == Ok(cfg.(dbname := n.dbname, params := n.params))
  {
    DbBack(cfg, Config("", "", "", "", n.dbname, n.params), accepts);
  }

  lemma NoSlashIn(n: Name)
    requires '/' !in n.dbname && (n.params.Some? ==> '/' !in n.params.value)
    ensures '/' !in DbPart(n)
  {
    SlashNone(Config("", "", "", "", n.dbname, n.params));
  }

  /** Whatever is left out, a name is parsed to what it means. */
  lemma NamesMean(n: Name, accepts: string -> bool)
    requires Plain(n, accepts)
    ensures Parse(Spelled(n), accepts) == Meaning(n)
  {
    NoSlashIn(n);
    LeftBack(n);
    DbPartBack(ParseLeft(LeftPart(n)).config, n, accepts);
    MeaningIs(n);
    hide LeftPart, DbPart, ParseLeft, WithDb, WithDefaults, Meaning, LastIndex, Plain, Parse;
    CutAtSlash(LeftPart(n), DbPart(n), accepts);
  }

  lemma MeaningIs(n: Name)
    ensures Meaning(n) ==
              WithDefaults(Config(if n.login.Some? then n.login.value.user else "",
                                  if n.login.Some? && n.login.value.passwd.Some? then n.login.value.passwd.value else "",
                                  n.net, if n.addr.Some? then n.addr.value else "", n.dbname, n.params))
  {
  }

  lemma CutAtSlash(left: string, right: string, accepts: string -> bool)
    requires '/' !in right
    ensures Parse(left + "/" + right, accepts) == ParseParts(left, right, accepts)
  {
    var dsn := left + "/" + right;
    assert dsn == left + ['/'] + right;
    LastIs(left, '/', right);
    assert dsn[..|left|] == left && dsn[|left| + 1..] == right;
    hide ParseParts, LastIndex;
  }

  /** A query string that is refused makes the whole name invalid. */
  lemma RefusedParams(n: Name, accepts: string -> bool)
    requires n.params.Some? && !accepts(n.params.value) && Plain(n, _ => true)
    ensures Parse(Spelled(n), accepts) == InvalidParams
  {
    NoSlashIn(n);
    LeftBack(n);
    DbRefused(ParseLeft(LeftPart(n)).config, n, accepts);
    hide LeftPart, DbPart, ParseLeft, WithDb, WithDefaults, LastIndex, Plain, Parse;
    CutAtSlash(LeftPart(n), DbPart(n), accepts);
  }

  lemma DbRefused(cfg: Config, n: Name, accepts: string -> bool)
    requires '?' !in n.dbname && n.params.Some? && !accepts(n.params.value)
    ensures WithDb(cfg, DbPart(n), accepts) == InvalidParams
  {
    FirstIs(n.dbname, '?', n.params.value);
    assert DbPart(n) == n.dbname + ['?'] + n.params.value;
    assert DbPart(n)[|n.dbname| + 1..] == n.params.value;
    hide FirstIndex;
  }

  /** Without a slash everything is left out. */
  lemma NoSlash(dsn: string, accepts: string -> bool)
    requires '/' !in dsn
    ensures Parse(dsn, accepts) == Ok(Config("", "", "tcp", "127.0.0.1:3306", "", None))
  {
    LastNone(dsn, '/');
  }

  /** An opening parenthesis that is not closed before the slash is an error, another one when it is closed too early. */
  lemma Unclosed(net: string, tail: string, dbname: string, accepts: string -> bool)
    requires '(' !in net && '@' !in net && '@' !in tail && '/' !in dbname
    requires tail == "" || tail[|tail| - 1] != ')'
    ensures Parse(net + "(" + tail + "/" + dbname, accepts) == if ')' in tail then InvalidUnescaped else InvalidAddr
  {
    UnclosedLeft(net, tail);
    hide ParseLeft, LastIndex, WithDb;
    CutAtSlash(net + "(" + tail, dbname, accepts);
  }

  lemma UnclosedLeft(net: string, tail: string)
    requires '(' !in net && '@' !in net && '@' !in tail && (tail == "" || tail[|tail| - 1] != ')')
    ensures ParseLeft(net + "(" + tail) == if ')' in tail then InvalidUnescaped else InvalidAddr
  {
    var left := net + "(" + tail;
    LastNone(left, '@');
    assert left == net + ['('] + tail && left[0..] == left;
    FirstIs(net, '(', tail);
    assert left[|net| + 1..] == tail && left[|left| - 1] != ')';
    hide LastIndex, FirstIndex;
  }

  // ---------- The method ----------

  lemma LastUnique(s: string, c: char, k: int)
    requires -1 <= k < |s| && (k >= 0 ==> s[k] == c) && forall i :: k < i < |s| ==> s[i] != c
    ensures k == LastIndex(s, c)
  {
  }

  lemma FirstUnique(s: string, c: char, k: nat)
    requires k <= |s| && (k < |s| ==> s[k] == c) && forall i :: 0 <= i < k ==> s[i] != c
    ensures k == FirstIndex(s, c)
  {
  }

  method ParseDSN(dsn: string, accepts: string -> bool) returns (r: Result)
    ensures r == Parse(dsn, accepts)
  {
    hide LastIndex, WithDefaults, WithDb, ParseLeft;
    var cfg := Config("", "", "", "", "", None);
    var i := |dsn| - 1;
    while i >= 0
      invariant -1 <= i < |dsn| && forall k :: i < k < |dsn| ==> dsn[k] != '/'
    {
      if dsn[i] == '/' {
        break;
      }
      i := i - 1;
    }
    LastUnique(dsn, '/', i);
    if i >= 0 {
      r := ScanLeft(dsn, i);
      if r.Ok? {
        r := ScanDb(r.config, dsn, i, accepts);
      }
      if !r.Ok? {
        return;
      }
      cfg := r.config;
    }
    r := WithDefaults(cfg);
  }

  /** User, password, network and address, before the slash at `i`. */
  method ScanLeft(dsn: string, i: nat) returns (r: Result)
    requires i < |dsn| && dsn[i] == '/'
    ensures r == ParseLeft(dsn[..i])
  {
    hide LastIndex, FirstIndex, WithUser, WithNet;
    var cfg := Config("", "", "", "", "", None);
    if i > 0 {
      var j := ScanAt(dsn, i);
      if j >= 0 {
        cfg := ScanUser(dsn, j);
      }
      r := ScanNet(cfg, dsn, j + 1, i);
      Slices(dsn, i, j);
    } else {
      r := Ok(cfg);
    }
  }

  lemma Slices(dsn: string, i: nat, j: int)
    requires -1 <= j < i < |dsn|
    ensures dsn[..i][j + 1..] == dsn[j + 1..i] && (j >= 0 ==> dsn[..i][..j] == dsn[..j])
  {
  }

  method ScanAt(dsn: string, i: nat) returns (j: int)
    requires i < |dsn| && dsn[i] == '/'
    ensures j == LastIndex(dsn[..i], '@')
  {
    hide LastIndex;
    j := i;
    while j >= 0
      invariant -1 <= j <= i && forall k :: j < k < i ==> dsn[k] != '@'
    {
      if dsn[j] == '@' {
        break;
      }
      j := j - 1;
    }
    LastUnique(dsn[..i], '@', j);
  }

  method ScanUser(dsn: string, j: nat) returns (cfg: Config)
    requires j <= |dsn|
    ensures cfg == WithUser(Config("", "", "", "", "", None), dsn[..j])
  {
    hide FirstIndex;
    cfg := Config("", "", "", "", "", None);
    var k := 0;
    while k < j
      invariant k <= j && cfg == Config("", "", "", "", "", None) && forall m :: 0 <= m < k ==> dsn[m] != ':'
    {
      if dsn[k] == ':' {
        cfg := cfg.(passwd := dsn[k + 1..j]);
        break;
      }
      k := k + 1;
    }
    FirstUnique(dsn[..j], ':', k);
    cfg := cfg.(user := dsn[..k]);
    assert dsn[..j][..k] == dsn[..k] && (k < j ==> dsn[..j][k + 1..] == dsn[k + 1..j]);
  }

  lemma NetSlices(dsn: string, from: nat, k: nat, i: nat)
    requires from <= k < i <= |dsn|
    ensures dsn[from..i][i - from - 1] == dsn[i - 1] && dsn[from..i][k - from + 1..] == dsn[k + 1..i]
    ensures k + 1 < i ==> dsn[from..i][k - from + 1..i - from - 1] == dsn[k + 1..i - 1]
  {
    if k + 1 < i {
      SliceOfSlice(dsn, from, i, k - from + 1, i - from - 1);
    }
  }

  lemma SliceOfSlice(s: string, a: nat, b: nat, c: nat, d: nat)
    requires a <= b <= |s| && c <= d <= b - a
    ensures s[a..b][c..d] == s[a + c..a + d]
  {
    forall m | 0 <= m < d - c ensures s[a..b][c..d][m] == s[a + c..a + d][m] {
      assert s[a..b][c + m] == s[a + c + m];
    }
  }

  /** Network and address, in `dsn[from..i]`. */
  method ScanNet(cfg: Config, dsn: string, from: nat, i: nat) returns (r: Result)
    requires from <= i <= |dsn|
    ensures r == WithNet(cfg, dsn[from..i])
  {
    hide FirstIndex;
    ghost var right := dsn[from..i];
    r := Ok(cfg);
    var k := from;
    while k < i
      invariant from <= k <= i && r == Ok(cfg) && forall m :: 0 <= m < k - from ==> right[m] != '('
    {
      if dsn[k] == '(' {
        assert right[k - from] == '(';
        FirstUnique(right, '(', k - from);
        NetSlices(dsn, from, k, i);
        if dsn[i - 1] != ')' {
          return if ')' in dsn[k + 1..i] then InvalidUnescaped else InvalidAddr;
        }
        r := Ok(cfg.(addr := dsn[k + 1..i - 1]));
        break;
      }
      assert right[k - from] == dsn[k];
      k := k + 1;
    }
    FirstUnique(right, '(', k - from);
    r := Ok(r.config.(net := dsn[from..k]));
    assert right[..k - from] == dsn[from..k];
  }

  /** Database and query string, behind the slash at `i`. */
  method ScanDb(cfg: Config, dsn: string, i: nat, accepts: string -> bool) returns (r: Result)
    requires i < |dsn|
    ensures r == WithDb(cfg, dsn[i + 1..], accepts)
  {
    hide FirstIndex;
    ghost var right := dsn[i + 1..];
    r := Ok(cfg);
    var j := i + 1;
    while j < |dsn|
      invariant i < j <= |dsn| && r == Ok(cfg) && forall m :: 0 <= m < j - i - 1 ==> right[m] != '?'
    {
      if dsn[j] == '?' {
        FirstUnique(right, '?', j - i - 1);
        assert right[j - i..] == dsn[j + 1..];
        if !accepts(dsn[j + 1..]) {
          return InvalidParams;
        }
        r := Ok(cfg.(params := Some(dsn[j + 1..])));
        break;
      }
      j := j + 1;
    }
    FirstUnique(right, '?', j - i - 1);
    r := Ok(r.config.(dbname := dsn[i + 1..j]));
    assert right[..j - i - 1] == dsn[i + 1..j];
  }
}
