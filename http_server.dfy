/**
 * The credential form server of main/http_server.c: the POST handler that
 * reads "ssid=...&pass=..." from the request body, decodes `+` as a space,
 * stores the credentials and restarts, and the guard that keeps the server
 * from starting before its dependencies are set. Serving the static files is
 * file I/O and is not modelled; the routes that serve them are.
 */
module HttpServer {
  import opened Esp
  import opened Util
  import opened NvsMemory
  import opened LedsDriver
  import opened LcdDriver

  /** `sizeof(buf) - 1`: the most body bytes the handler receives. */
  const RecvCap: nat := 127
  /** The field width of both `sscanf` conversions, `%63[^&]` and `%63s`. */
  const FieldCap: nat := 63
  /** The size of the `ssid` and `pass` buffers. */
  const FieldBufSize: nat := 64

  const SsidKey: string := "ssid="
  const PassKey: string := "&pass="

  const ServerErrorText: string := "Server ERROR"
  const SavedText: string := "Saved! Rebooting..."
  const NewWifiText: string := "New WIFI set successfully !"
  const RebootingText: string := "Rebooting"

  /** The two fields `sscanf` fills; a field it does not reach stays empty. */
  datatype Form = Form(ssid: string, pass: string)

  /** What the handler sends back. */
  datatype Response = InternalError | Reply(body: string)

  /** How the handler ends: an error result, or the restart that never returns. */
  datatype PostOutcome = PostFailed | Restarting

  datatype HttpMethod = Get | Post
  datatype Page = IndexPage | StyleSheet | Script | SetCredentials
  datatype Route = Route(uri: string, verb: HttpMethod, page: Page)

  /** The handlers `start_webserver` registers, in order. */
  const Routes: seq<Route> := [Route("/", Get, IndexPage), Route("/style.css", Get, StyleSheet),
                               Route("/script.js", Get, Script), Route("/set", Post, SetCredentials)]

  /** White space as `isspace` sees it in the C locale. */
  predicate IsSpace(c: char)
  {
    c == ' ' || 9 <= c as int <= 13
  }

  /** How many leading characters of `s` a `%cap[^stop]` conversion takes. */
  function SpanNot(s: string, cap: nat, stop: char): (n: nat)
    ensures n <= cap && n <= |s|
    ensures forall i :: 0 <= i < n ==> s[i] != stop
    ensures n < cap && n < |s| ==> s[n] == stop
  {
    if cap == 0 || s == [] || s[0] == stop then 0 else 1 + SpanNot(s[1..], cap - 1, stop)
  }

  /** How many leading characters of `s` a `%cap s` conversion takes once leading white space is skipped. */
  function SpanWord(s: string, cap: nat): (n: nat)
    ensures n <= cap && n <= |s|
    ensures forall i :: 0 <= i < n ==> !IsSpace(s[i])
    ensures n < cap && n < |s| ==> IsSpace(s[n])
  {
    if cap == 0 || s == [] || IsSpace(s[0]) then 0 else 1 + SpanWord(s[1..], cap - 1)
  }

  /** How much leading white space `%s` skips. */
  function SkipSpace(s: string): (n: nat)
    ensures n <= |s|
    ensures forall i :: 0 <= i < n ==> IsSpace(s[i])
    ensures n < |s| ==> !IsSpace(s[n])
  {
    if s == [] || !IsSpace(s[0]) then 0 else 1 + SkipSpace(s[1..])
  }

  /**
   * `sscanf(buf, "ssid=%63[^&]&pass=%63s", ssid, pass)`: the literal "ssid="
   * must lead; the SSID is 1 to 63 characters other than `&`; the literal
   * "&pass=" must follow it at once; the password is up to 63 characters
   * without white space after any white space. Scanning stops at the first
   * mismatch, leaving the fields it has not reached empty.
   */
  function ParseForm(buf: string): (f: Form)
  {
    if !(SsidKey <= buf) then Form("", "")
    else
      var rest := buf[|SsidKey|..];
      var n := SpanNot(rest, FieldCap, '&');
      if n == 0 then Form("", "")
      else
        var after := rest[n..];
        if !(PassKey <= after) then Form(rest[..n], "")
        else
          var p := after[|PassKey|..];
          var p := p[SkipSpace(p)..];
          Form(rest[..n], p[..SpanWord(p, FieldCap)])
  }

  /** The C string the handler parses: the first 127 received bytes, up to a NUL. */
  function FormBuffer(body: seq<char>): (buf: string)
    ensures |buf| <= RecvCap && '\0' !in buf
  {
    CStr(Bounded(body, RecvCap))
  }

  /** `httpd_req_recv`'s result: an error code, or the number of bytes copied. */
  function RecvResult(body: seq<char>, recvError: bool): (ret: int)
    ensures ret <= 0 <==> recvError || body == []
  {
    if recvError then -1 else Min(|body|, RecvCap)
  }

  /** The credentials a body leads to: the parsed fields with `+` decoded as a space. */
  function SavedForm(body: seq<char>): Form
  {
    var f := ParseForm(FormBuffer(body));
    Form(PlusToSpace(f.ssid), PlusToSpace(f.pass))
  }

  /* --------------------------------------------------------------- lemmas */

  /** Both fields fit their buffers, the SSID holds no `&`, the password no white space, and no NUL gets in. */
  lemma ParseFormBounds(buf: string)
    ensures var f := ParseForm(buf);
            |f.ssid| <= FieldCap && |f.pass| <= FieldCap &&
            (forall i :: 0 <= i < |f.ssid| ==> f.ssid[i] != '&') &&
            (forall i :: 0 <= i < |f.pass| ==> !IsSpace(f.pass[i])) &&
            ('\0' !in buf ==> '\0' !in f.ssid && '\0' !in f.pass)
  {
  }

  /**
   * The failure cases: a body not led by "ssid=", or with nothing before the
   * `&`, gives two empty fields; an SSID that runs past 63 characters keeps
   * its first 63 and leaves the password empty.
   */
  lemma ParseFormMismatches(buf: string)
    ensures !(SsidKey <= buf) ==> ParseForm(buf) == Form("", "")
    ensures ParseForm(buf).ssid == "" ==> ParseForm(buf).pass == ""
    ensures SsidKey <= buf && |buf| > |SsidKey| + FieldCap &&
            (forall i :: |SsidKey| <= i <= |SsidKey| + FieldCap ==> buf[i] != '&') ==>
              ParseForm(buf) == Form(buf[|SsidKey|..|SsidKey| + FieldCap], "")
  {
    if SsidKey <= buf && |buf| > |SsidKey| + FieldCap &&
       (forall i :: |SsidKey| <= i <= |SsidKey| + FieldCap ==> buf[i] != '&') {
      var rest := buf[|SsidKey|..];
      assert rest[FieldCap] == buf[|SsidKey| + FieldCap];
      assert SpanNot(rest, FieldCap, '&') == FieldCap;
      assert rest[FieldCap..][0] != PassKey[0];
    }
  }

  /** A span stops exactly at the end of a part free of `stop` that is followed by `stop` or nothing. */
  lemma SpanNotExact(s: string, t: string, cap: nat, stop: char)
    requires |s| <= cap && stop !in s && (t == [] || t[0] == stop)
    ensures SpanNot(s + t, cap, stop) == |s|
  {
    assert forall i :: 0 <= i < |s| ==> (s + t)[i] == s[i];
    assert t != [] ==> (s + t)[|s|] == t[0];
  }

  /** A word span stops exactly at the end of a string without white space. */
  lemma SpanWordExact(p: string, cap: nat)
    requires |p| <= cap && forall i :: 0 <= i < |p| ==> !IsSpace(p[i])
    ensures SpanWord(p, cap) == |p|
  {
  }

  /**
   * The form the web page sends parses back to its fields: an SSID of 1 to
   * 63 characters without `&` and a password of up to 63 characters without
   * white space.
   */
  lemma FormRoundTrip(ssid: string, pass: string)
    requires 0 < |ssid| <= FieldCap && '&' !in ssid
    requires |pass| <= FieldCap && forall i :: 0 <= i < |pass| ==> !IsSpace(pass[i])
    ensures ParseForm(SsidKey + ssid + PassKey + pass) == Form(ssid, pass)
  {
    var buf := SsidKey + ssid + PassKey + pass;
    assert SsidKey <= buf;
    var rest := buf[|SsidKey|..];
    assert rest == ssid + (PassKey + pass);
    SpanNotExact(ssid, PassKey + pass, FieldCap, '&');
    assert rest[..|ssid|] == ssid;
    var after := rest[|ssid|..];
    assert after == PassKey + pass;
    assert PassKey <= after;
    assert after[|PassKey|..] == pass;
    if pass != [] {
      assert !IsSpace(pass[0]);
    }
    assert SkipSpace(pass) == 0;
    SpanWordExact(pass, FieldCap);
    assert pass[0..] == pass && pass[..|pass|] == pass;
  }

  /** Decoding keeps a field free of NUL and within its length. */
  lemma PlusToSpaceKeepsCString(s: string)
    ensures |PlusToSpace(s)| == |s|
    ensures '\0' !in s ==> '\0' !in PlusToSpace(s)
  {
    PlusToSpaceMeaning(s);
  }

  /** Only `/set` takes a POST, and it is the credentials handler; the URIs are distinct. */
  lemma RoutesMeaning()
    ensures |Routes| == 4
    ensures forall i :: 0 <= i < |Routes| ==> (Routes[i].verb == Post <==> Routes[i].uri == "/set")
    ensures forall i :: 0 <= i < |Routes| && Routes[i].uri == "/set" ==> Routes[i].page == SetCredentials
    ensures forall i, j :: 0 <= i < j < |Routes| ==> Routes[i].uri != Routes[j].uri
  {
  }

  /** The module state of main/http_server.c. */
  class HttpServerModule {
    var initialized: bool
    var lcd: LcdContext
    var nvs: int

    /** The static initial state: not initialised. */
    constructor ()
      ensures !initialized && lcd == LcdContext(0, 0, 0, 0, 0, 0, 0, 0) && nvs == 0
    {
      initialized := false;
      lcd := LcdContext(0, 0, 0, 0, 0, 0, 0, 0);
      nvs := 0;
    }

    /** `init_http_server`: keep the LCD context and the storage handle, then mark the module initialised. */
    method Init(lcdCon: LcdContext, nvsHandle: int)
      modifies this
      ensures initialized && lcd == lcdCon && nvs == nvsHandle
    {
      nvs := nvsHandle;
      lcd := lcdCon;
      initialized := true;
    }

    /**
     * `start_webserver`: no server before `init_http_server` or when the
     * server cannot start (`startOk` false); otherwise a server with the four
     * routes.
     */
    method StartWebserver(startOk: bool) returns (server: Option<seq<Route>>)
      ensures server.Some? <==> initialized && startOk
      ensures server.Some? ==> server.value == Routes
    {
      if !initialized {
        return None;
      }
      if !startOk {
        return None;
      }
      return Some(Routes);
    }

    /**
     * `set_post_handler`. A failed or empty receive answers 500, lights the
     * red LED with the others off, shows "Server ERROR" and fails with the
     * store untouched. Otherwise the credentials parsed from the first 127
     * bytes are decoded and handed to the store (which ignores an empty
     * SSID); the reply is "Saved! Rebooting...", green blinks five times with
     * the others off, two messages are shown, and the device restarts.
     * `recvError` stands for a receive error, `readFault` for a failed read of
     * the stored list, `allocOk` for the LCD's copy of each text.
     */
    method SetPostHandler(body: seq<char>, recvError: bool, readFault: bool,
                          store: NvsStore, leds: Leds, display: Lcd, allocOk: bool)
      returns (outcome: PostOutcome, response: Response)
      requires store.Valid()
      modifies store, leds, display
      ensures store.Valid()
      ensures RecvResult(body, recvError) <= 0 ==>
                outcome == PostFailed && response == InternalError && store.blob == old(store.blob) &&
                leds.queue == old(leds.queue) + (if leds.initialized then Commands(On(Red, true)) else []) &&
                display.levels == old(display.levels) + (if allocOk then ShowLinesPins(0, ServerErrorText, true, lcd) else [])
      ensures RecvResult(body, recvError) > 0 ==>
                outcome == Restarting && response == Reply(SavedText) &&
                store.blob == (if SavedForm(body).ssid == "" then old(store.blob)
                               else Some(UpsertList(LoadedList(old(store.blob), readFault), SavedForm(body).ssid, SavedForm(body).pass))) &&
                leds.queue == old(leds.queue) + (if leds.initialized then Commands(BlinkTimes(Green, 0.3, 5, true)) else []) &&
                display.levels == old(display.levels) +
                  (if allocOk then ShowLinesPins(0, NewWifiText, true, lcd) + ShowLinesPins(0, RebootingText, true, lcd) else [])
      ensures leds.initialized == old(leds.initialized) && leds.pins == old(leds.pins)
    {
      var ret := RecvResult(body, recvError);
      if ret <= 0 {
        leds.Apply(On(Red, true));
        display.ShowLines(0, ServerErrorText, lcd, true, allocOk);
        return PostFailed, InternalError;
      }
      var buf := FormBuffer(body);
      var f := ParseForm(buf);
      ParseFormBounds(buf);
      var ssid := DecodeField(f.ssid);
      var pass := DecodeField(f.pass);
      PlusToSpaceKeepsCString(f.ssid);
      PlusToSpaceKeepsCString(f.pass);
      var name: CString := ssid;
      store.AddCreds(Some(name), pass, readFault);
      leds.Apply(BlinkTimes(Green, 0.3, 5, true));
      ghost var l0 := display.levels;
      display.ShowLines(0, NewWifiText, lcd, true, allocOk);
      display.ShowLines(0, RebootingText, lcd, true, allocOk);
      if allocOk {
        AppendAssoc(l0, ShowLinesPins(0, NewWifiText, true, lcd), ShowLinesPins(0, RebootingText, true, lcd));
      }
      return Restarting, Reply(SavedText);
    }

    /** One field put into its 64-byte buffer and decoded in place by `replace_plus_with_space`. */
    static method DecodeField(field: string) returns (r: string)
      requires |field| <= FieldCap && '\0' !in field
      ensures r == PlusToSpace(field)
    {
      var buf := new char[FieldBufSize](i => if 0 <= i < |field| then field[i] else '\0');
      assert buf[..|field|] == field;
      assert buf[FieldCap] == '\0';
      CStrOfTerminated(buf[..], |field|);
      ghost var before := buf[..];
      ReplacePlusWithSpace(buf);
      CStrOfDecoded(before);
      r := CStr(buf[..]);
    }
  }
}
