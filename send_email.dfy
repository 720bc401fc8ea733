/**
 * The mail transport's own logic: who a message goes to, which addresses
 * appear in which header, the result record a send returns, the default
 * styling configuration and its updates, and the lookup tables behind the
 * notification subjects.
 *
 * The SMTP session, MIME assembly, header encoding, attachment reading and
 * the HTML bodies are outside the model; what the SMTP session did is an
 * input (`SmtpOutcome`).
 */
module SendEmail {
  import opened Wrappers
  import opened Strings
  import opened PyValues

  // ------------------------------------------------------------ data model

  /** An address argument: absent, one address, or a list of addresses. */
  datatype Addresses = NoAddr | One(addr: string) | Many(addrs: seq<string>)

  /** What the SMTP session did once the message was built. */
  datatype SmtpOutcome = Delivered | ConnectFailed(reason: string) | SendFailed(reason: string)

  /** The message handed to `sendmail`: the envelope recipients and the
      address headers (`From`, `Subject` and `Date` are not modelled). */
  datatype Envelope = Envelope(recipients: seq<string>, headers: seq<(string, string)>)

  /** The `result_info` record of one send. */
  datatype SendRecord = SendRecord(
    to: Addresses, cc: Addresses, bcc: Addresses, subject: Value, attachments: seq<string>,
    status: string, error: Option<string>, duration: Option<string>)

  const NoDefaultRecipients := "未找到默认收件人列表(send_to)"
  const NoRecipients := "必须指定收件人或设置use_default_recipients=True"

  /** `if x:` on an address argument. */
  predicate Given(a: Addresses) {
    match a
    case NoAddr => false
    case One(s) => s != []
    case Many(xs) => xs != []
  }

  /** The addresses an argument contributes: none when it is falsy, the
      string itself, or the list in its order. */
  function Listed(a: Addresses): (r: seq<string>)
    ensures !Given(a) ==> r == []
    ensures a.Many? ==> r == a.addrs
    ensures a.One? && Given(a) ==> r == [a.addr]
  {
    match a
    case NoAddr => []
    case One(s) => if s == [] then [] else [s]
    case Many(xs) => xs
  }

  // ----------------------------------------------- recipient resolution

  /** Who receives the message: the explicit addresses, else the default
      list when asked for and non-empty, else an error naming what is missing. */
  function ResolveRecipients(to: Addresses, useDefault: bool, defaults: Addresses): (r: Result<Addresses, string>)
    ensures Given(to) ==> r == Ok(to)
    ensures !Given(to) && useDefault && Given(defaults) ==> r == Ok(defaults)
    ensures !Given(to) && useDefault && !Given(defaults) ==> r == Err(NoDefaultRecipients)
    ensures !Given(to) && !useDefault ==> r == Err(NoRecipients)
    ensures r.Ok? ==> Given(r.value)
  {
    if useDefault && !Given(to) then
      if !Given(defaults) then Err(NoDefaultRecipients) else Ok(defaults)
    else if !Given(to) then Err(NoRecipients)
    else Ok(to)
  }

  /** The envelope and the address headers built for resolved recipients. */
  function BuildEnvelope(to: Addresses, cc: Addresses, bcc: Addresses): (r: Envelope)
    requires Given(to)
    ensures r.recipients == Listed(to) + Listed(cc) + Listed(bcc)
    ensures |r.headers| == (if Given(cc) then 2 else 1)
    ensures r.headers[0] == ("To", Join(Listed(to), ", "))
    ensures Given(cc) ==> r.headers[1] == ("Cc", Join(Listed(cc), ", "))
    ensures forall i :: 0 <= i < |r.headers| ==> r.headers[i].0 != "Bcc"
  {
    var toHeader := if to.Many? then Join(to.addrs, ", ") else to.addr;
    var ccHeader := if !Given(cc) then [] else if cc.Many? then [("Cc", Join(cc.addrs, ", "))] else [("Cc", cc.addr)];
    Envelope(Listed(to) + Listed(cc) + Listed(bcc), [("To", toHeader)] + ccHeader)
  }

  /** Blind copies reach the envelope but no header: the headers are the
      same whatever the bcc argument is. */
  lemma HeadersIgnoreBcc(to: Addresses, cc: Addresses, bcc1: Addresses, bcc2: Addresses)
    requires Given(to)
    ensures BuildEnvelope(to, cc, bcc1).headers == BuildEnvelope(to, cc, bcc2).headers
    ensures var r := BuildEnvelope(to, cc, bcc1);
            Listed(bcc1) == r.recipients[|r.recipients| - |Listed(bcc1)|..]
  {
  }

  // ------------------------------------------------------ result record

  /** The error text of a failed SMTP session, `str(e)`. */
  function SmtpError(o: SmtpOutcome): string
    requires !o.Delivered?
  {
    if o.ConnectFailed? then "SMTP连接失败: " + o.reason else o.reason
  }

  /** The record of one send: `success` with a duration exactly when the
      recipients resolved and the SMTP session delivered, otherwise `failed`
      with the error's text. */
  function SendResult(to: Addresses, cc: Addresses, bcc: Addresses, subject: Value, attachments: seq<string>,
                      resolved: Result<Addresses, string>, smtp: SmtpOutcome, elapsed: string): (r: SendRecord)
    ensures r.status == "success" || r.status == "failed"
    ensures r.status == "success" <==> resolved.Ok? && smtp.Delivered?
    ensures r.status == "success" <==> r.error.None?
    ensures r.duration.Some? <==> r.status == "success"
    ensures resolved.Err? ==> r.error == Some(resolved.error)
    ensures resolved.Ok? && !smtp.Delivered? ==> r.error == Some(SmtpError(smtp))
    ensures (r.to, r.cc, r.bcc, r.subject, r.attachments) == (to, cc, bcc, subject, attachments)
  {
    var initial := SendRecord(to, cc, bcc, subject, attachments, "failed", None, None);
    if resolved.Err? then initial.(error := Some(resolved.error))
    else if !smtp.Delivered? then initial.(error := Some(SmtpError(smtp)))
    else initial.(status := "success", duration := Some(elapsed + "s"))
  }

  /** The record as the dict the caller receives. */
  function AddressesValue(a: Addresses): Value {
    match a
    case NoAddr => NoneValue
    case One(s) => Str(s)
    case Many(xs) => List(seq(|xs|, i requires 0 <= i < |xs| => Str(xs[i])))
  }

  function OptionalText(o: Option<string>): Value {
    if o.Some? then Str(o.value) else NoneValue
  }

  function RecordValue(r: SendRecord): (v: Value)
    ensures v.Dict?
    ensures Get(v.entries, "status") == Some(Str(r.status))
    ensures Get(v.entries, "error") == Some(OptionalText(r.error))
  {
    var echo := [("to", AddressesValue(r.to)), ("cc", AddressesValue(r.cc)), ("bcc", AddressesValue(r.bcc)),
                 ("subject", r.subject),
                 ("attachments", List(seq(|r.attachments|, i requires 0 <= i < |r.attachments| => Str(r.attachments[i]))))];
    var outcome := [("status", Str(r.status)), ("error", OptionalText(r.error)), ("duration", OptionalText(r.duration))];
    GetAppend(echo, outcome, "status");
    GetAppend(echo, outcome, "error");
    Dict(echo + outcome)
  }

  // ------------------------------------------------------ configuration

  /** The styling defaults every sender starts with. */
  const InitialDefaults: map<string, Value> := map[
    "theme_color" := Str("#8ec5ff"),
    "secondary_color" := Str("#f4effb"),
    "theme_gradient" := List([Str("#f4effb"), Str("#8ec5ff")]),
    "text_color" := Str("#2c3e50"),
    "accent_color" := Str("#3498db"),
    "admin_url" := Str("https://your-admin-domain.com"),
    "site_name" := Str("数据库备份管理系统"),
    "logo_url" := NoneValue,
    "footer_text" := Str("系统自动通知")]

  /** Keyword arguments arrive as a dict: no key twice. */
  predicate DistinctKeys(kw: seq<(string, Value)>) {
    forall i, j :: 0 <= i < j < |kw| ==> kw[i].0 != kw[j].0
  }

  /** `dict.get(key, default)` on a configuration map. */
  function MapGet(d: map<string, Value>, key: string, default: Value): Value {
    if key in d then d[key] else default
  }

  /** `{**d, **kw}`: the keyword arguments override, the defaults fill the rest. */
  function Merge(d: map<string, Value>, kw: seq<(string, Value)>): (r: map<string, Value>)
    ensures forall k :: k in r <==> k in d || Get(kw, k).Some?
    ensures DistinctKeys(kw) ==> forall k :: k in r ==> r[k] == (if Get(kw, k).Some? then Get(kw, k).value else d[k])
    decreases |kw|
  {
    if kw == [] then d
    else
      var r := Merge(d[kw[0].0 := kw[0].1], kw[1..]);
      KeyOfFirst(kw);
      r
  }

  /** How `get` on keyword arguments unfolds at the first pair. */
  lemma KeyOfFirst(kw: seq<(string, Value)>)
    requires kw != []
    ensures Get(kw, kw[0].0) == Some(kw[0].1)
    ensures forall k :: k != kw[0].0 ==> Get(kw, k) == Get(kw[1..], k)
    ensures DistinctKeys(kw) ==> DistinctKeys(kw[1..]) && Get(kw[1..], kw[0].0).None?
  {
    if DistinctKeys(kw) {
      forall i | 0 <= i < |kw[1..]| ensures kw[1..][i].0 != kw[0].0 {
        assert kw[1..][i] == kw[i + 1];
      }
    }
  }

  /** `update_config`: each keyword already present in the defaults
      replaces its value; unknown keywords are ignored. */
  function ApplyUpdates(d: map<string, Value>, kw: seq<(string, Value)>): (r: map<string, Value>)
    ensures r.Keys == d.Keys
    ensures DistinctKeys(kw) ==> forall k :: k in r ==> r[k] == (if Get(kw, k).Some? then Get(kw, k).value else d[k])
    decreases |kw|
  {
    if kw == [] then d
    else
      var next := if kw[0].0 in d then d[kw[0].0 := kw[0].1] else d;
      KeyOfFirst(kw);
      ApplyUpdates(next, kw[1..])
  }

  /** An update is the per-call merge restricted to the keys already known. */
  lemma UpdateIsRestrictedMerge(d: map<string, Value>, kw: seq<(string, Value)>)
    requires DistinctKeys(kw)
    ensures ApplyUpdates(d, kw) == map k | k in d :: Merge(d, kw)[k]
  {
  }

  /** `_format_backup_details`: a dict becomes one `<strong>key:</strong> value`
      line per entry, joined with `<br>`; anything else is `str(x)`. */
  function FormatBackupDetails(info: Value): (r: string)
    ensures !info.Dict? ==> r == ToStr(info)
    ensures info.Dict? && info.entries == [] ==> r == ""
    ensures info.Dict? && |info.entries| == 1 ==> r == DetailLine(info.entries[0])
  {
    if info.Dict? then Join(DetailLines(info.entries), "<br>") else ToStr(info)
  }

  function DetailLine(e: (string, Value)): string {
    "<strong>" + e.0 + ":</strong> " + ToStr(e.1)
  }

  function DetailLines(es: seq<(string, Value)>): (r: seq<string>)
    ensures |r| == |es|
  {
    seq(|es|, i requires 0 <= i < |es| => DetailLine(es[i]))
  }

  /** Entries keep their insertion order: one more entry adds one more line at the end. */
  lemma FormatBackupDetailsSnoc(es: seq<(string, Value)>, e: (string, Value))
    requires es != []
    ensures FormatBackupDetails(Dict(es + [e])) == FormatBackupDetails(Dict(es)) + "<br>" + DetailLine(e)
  {
    assert DetailLines(es + [e]) == DetailLines(es) + [DetailLine(e)];
    JoinSnoc(DetailLines(es), DetailLine(e), "<br>");
  }

  // -------------------------------------------- subjects and style tables

  /** `title_map.get(backup_type, '数据备份')`, or None where the lookup
      raises TypeError because the key cannot be hashed. */
  function BackupTitle(backupType: Value): (r: Option<string>)
    ensures r.None? <==> !Hashable(backupType)
    ensures backupType == Str("database") ==> r == Some("数据库备份")
    ensures backupType == Str("files") ==> r == Some("文件备份")
    ensures backupType == Str("full") ==> r == Some("完整备份")
    ensures Hashable(backupType) && backupType !in {Str("database"), Str("files"), Str("full")} ==> r == Some("数据备份")
  {
    if !Hashable(backupType) then None
    else if backupType == Str("database") then Some("数据库备份")
    else if backupType == Str("files") then Some("文件备份")
    else if backupType == Str("full") then Some("完整备份")
    else Some("数据备份")
  }

  /** The subject of a backup notification; the site name comes from the
      defaults, never from the call's keyword arguments. */
  function BackupSubject(defaults: map<string, Value>, backupType: Value): Option<string> {
    var title := BackupTitle(backupType);
    if title.None? then None
    else Some("💾 " + ToStr(MapGet(defaults, "site_name", NoneValue)) + " - " + title.value + "完成通知")
  }

  function ErrorSubject(defaults: map<string, Value>, errorType: Value): string {
    "🚨 " + ToStr(MapGet(defaults, "site_name", NoneValue)) + " - " + ToStr(errorType) + "错误通知"
  }

  /** The subject of a custom notification is its title. */
  function CustomSubject(title: Value): string {
    ToStr(title)
  }

  /** `type_config.get(notification_type, type_config['info'])`: the icon
      and banner colour of a custom notification, or None where the lookup
      raises TypeError because the key cannot be hashed. */
  function NotifyStyle(notificationType: Value, config: map<string, Value>): (r: Option<(string, Value)>)
    ensures r.None? <==> !Hashable(notificationType)
    ensures notificationType == Str("success") ==> r == Some(("\U{2705}", Str("#27ae60")))
    ensures notificationType == Str("warning") ==> r == Some(("\U{26A0}\U{FE0F}", Str("#f39c12")))
    ensures notificationType == Str("error") ==> r == Some(("\U{274C}", Str("#e74c3c")))
    ensures Hashable(notificationType) && notificationType !in {Str("success"), Str("warning"), Str("error")} ==>
      r == Some(("\U{2139}\U{FE0F}", MapGet(config, "theme_color", Str("#8ec5ff"))))
  {
    if !Hashable(notificationType) then None
    else if notificationType == Str("success") then Some(("\U{2705}", Str("#27ae60")))
    else if notificationType == Str("warning") then Some(("\U{26A0}\U{FE0F}", Str("#f39c12")))
    else if notificationType == Str("error") then Some(("\U{274C}", Str("#e74c3c")))
    else Some(("\U{2139}\U{FE0F}", MapGet(config, "theme_color", Str("#8ec5ff"))))
  }

  /** With no `theme_color` in the call's configuration the info banner
      keeps the stock colour. */
  lemma InfoStyleDefaultColour(notificationType: Value, kw: seq<(string, Value)>)
    requires DistinctKeys(kw) && Get(kw, "theme_color").None?
    requires Hashable(notificationType) && notificationType !in {Str("success"), Str("warning"), Str("error")}
    ensures NotifyStyle(notificationType, Merge(InitialDefaults, kw)).value.1 == Str("#8ec5ff")
  {
    var merged := Merge(InitialDefaults, kw);
    assert InitialDefaults["theme_color"] == Str("#8ec5ff");
    assert merged["theme_color"] == Str("#8ec5ff");
  }

  // ------------------------------------------------------------ the sender

  class EmailSender {
    /** The `send_to` entry of the loaded configuration, if there is one:
        None (`NoAddr`), one address or a list of addresses. */
    const sendTo: Option<Addresses>
    var defaultConfig: map<string, Value>

    constructor (sendTo: Option<Addresses>)
      ensures this.sendTo == sendTo && defaultConfig == InitialDefaults
    {
      this.sendTo := sendTo;
      defaultConfig := InitialDefaults;
    }

    /** `get_default_recipients`: the configured entry as it is, or an
        empty list when there is none. */
    function DefaultRecipients(): (r: Addresses)
      ensures sendTo.None? ==> r == Many([]) && !Given(r)
      ensures sendTo.Some? ==> r == sendTo.value
    {
      sendTo.GetOr(Many([]))
    }

    /** `update_config(**kw)`. */
    method UpdateConfig(kw: seq<(string, Value)>)
      modifies this
      ensures defaultConfig == ApplyUpdates(old(defaultConfig), kw)
      ensures defaultConfig.Keys == old(defaultConfig).Keys
    {
      var i := 0;
      while i < |kw|
        invariant 0 <= i <= |kw|
        invariant ApplyUpdates(defaultConfig, kw[i..]) == ApplyUpdates(old(defaultConfig), kw)
      {
        assert kw[i..][1..] == kw[i + 1..];
        var (k, v) := kw[i];
        if k in defaultConfig {
          defaultConfig := defaultConfig[k := v];
        }
        i := i + 1;
      }
      assert kw[i..] == [];
    }

    /** The configuration one call sees; the defaults themselves stay as they are. */
    method CallConfig(kw: seq<(string, Value)>) returns (config: map<string, Value>)
      requires DistinctKeys(kw)
      ensures forall k :: k in config <==> k in defaultConfig || Get(kw, k).Some?
      ensures forall k :: k in config ==> config[k] == (if Get(kw, k).Some? then Get(kw, k).value else defaultConfig[k])
    {
      config := Merge(defaultConfig, kw);
    }

    /** The `To`/`Cc` headers and the envelope list, built up field by field. */
    static method Address(list: Addresses, cc: Addresses, bcc: Addresses) returns (env: Envelope)
      requires Given(list)
      ensures env == BuildEnvelope(list, cc, bcc)
    {
      var recipients: seq<string>;
      var headers: seq<(string, string)>;
      if list.Many? {
        headers := [("To", Join(list.addrs, ", "))];
        recipients := list.addrs;
      } else {
        headers := [("To", list.addr)];
        recipients := [list.addr];
      }
      assert recipients == Listed(list);
      if Given(cc) {
        if cc.Many? {
          headers := headers + [("Cc", Join(cc.addrs, ", "))];
          recipients := recipients + cc.addrs;
        } else {
          headers := headers + [("Cc", cc.addr)];
          recipients := recipients + [cc.addr];
        }
      }
      assert recipients == Listed(list) + Listed(cc);
      if Given(bcc) {
        if bcc.Many? {
          recipients := recipients + bcc.addrs;
        } else {
          recipients := recipients + [bcc.addr];
        }
      }
      env := Envelope(recipients, headers);
    }

    /** `send_email`: resolve the recipients, build the envelope and headers,
        run the SMTP session, and fill in the result record, which is handed
        back only when `asJson` is set. `built` is the message handed to the
        SMTP session, if the recipients resolved. */
    method Send(to: Addresses, subject: Value, attachments: seq<string>, cc: Addresses, bcc: Addresses,
                useDefault: bool, asJson: bool, smtp: SmtpOutcome, elapsed: string)
      returns (reply: Option<SendRecord>, built: Option<Envelope>)
      ensures var resolved := ResolveRecipients(to, useDefault, DefaultRecipients());
        && (built.Some? <==> resolved.Ok?)
        && (built.Some? ==> built.value == BuildEnvelope(resolved.value, cc, bcc))
        && reply == (if asJson then Some(SendResult(to, cc, bcc, subject, attachments, resolved, smtp, elapsed)) else None)
    {
      var record := SendRecord(to, cc, bcc, subject, attachments, "failed", None, None);
      built := None;
      var resolved := ResolveRecipients(to, useDefault, DefaultRecipients());
      if resolved.Err? {
        record := record.(error := Some(resolved.error));
      } else {
        var env := Address(resolved.value, cc, bcc);
        built := Some(env);
        if smtp.Delivered? {
          record := record.(status := "success", duration := Some(elapsed + "s"));
        } else {
          record := record.(error := Some(SmtpError(smtp)));
        }
      }
      reply := if asJson then Some(record) else None;
    }
  }
}
