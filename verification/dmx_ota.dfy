/** The over-the-air DMX configuration request: the web form's settings
    become the query string of a GET to `https://<artnet url>/internal`.
    The request itself, its credentials and the HTTP client are not part
    of this model; a request that would be sent is the `Sent` outcome
    carrying its URL. */
module DmxOta {
  import opened Wrappers
  import opened Text

  const DmxAddressParam: string := "dmxAddress"
  const DmxUniverseParam: string := "dmxUniverse"
  const DmxReceiverTypeParam: string := "dmxReceiverType"
  const DmxModeParam: string := "dmxMode"

  /** The ordinal of `NO_CHANGE` in both the mode and the receiver-type enum. */
  const NoChange: int := 0

  /** Addresses from 0 up to, not including, this bound are sent. */
  const AddressBound: int := 512

  const EmptyUrlMessage: string := "Mandatory field <Artnet URL> is empty, contact administrator!"
  const NoParamMessage: string := "No param specified!"

  /** The form's boxed integers; a field left empty is null. */
  datatype DmxConfigForm = DmxConfigForm(
    dmxMode: Option<int>,
    dmxAddress: Option<int>,
    dmxUniverse: Option<int>,
    receiverType: Option<int>)

  datatype OtaOutcome =
    /** The message returned instead of sending. */
    | Rejected(message: string)
    /** The GET request goes to `url`. */
    | Sent(url: string)

  /** `key=value` with the value in decimal. */
  function Field(key: string, value: int): string {
    key + "=" + IntToString(value)
  }

  /** The mode is sent as the form value minus one, unless it is NO_CHANGE. */
  function ModeField(form: DmxConfigForm): Option<string> {
    if form.dmxMode.Some? && form.dmxMode.value != NoChange
    then Some(Field(DmxModeParam, form.dmxMode.value - 1)) else None
  }

  function AddressField(form: DmxConfigForm): Option<string> {
    if form.dmxAddress.Some? && 0 <= form.dmxAddress.value < AddressBound
    then Some(Field(DmxAddressParam, form.dmxAddress.value)) else None
  }

  function UniverseField(form: DmxConfigForm): Option<string> {
    if form.dmxUniverse.Some? && form.dmxUniverse.value >= 0
    then Some(Field(DmxUniverseParam, form.dmxUniverse.value)) else None
  }

  /** The receiver type is sent as the form value minus one, unless it is NO_CHANGE. */
  function ReceiverField(form: DmxConfigForm): Option<string> {
    if form.receiverType.Some? && form.receiverType.value != NoChange
    then Some(Field(DmxReceiverTypeParam, form.receiverType.value - 1)) else None
  }

  function Present(f: Option<string>): seq<string> {
    if f.Some? then [f.value] else []
  }

  /** The fields after the mode, in the order they are appended. */
  function TrailingFields(form: DmxConfigForm): seq<string> {
    Present(AddressField(form)) + Present(UniverseField(form)) + Present(ReceiverField(form))
  }

  /** Every field the form yields: mode, address, universe, receiver type. */
  function Fields(form: DmxConfigForm): seq<string> {
    Present(ModeField(form)) + TrailingFields(form)
  }

  /** Each field led by an `&`. */
  function Prefixed(fields: seq<string>): string {
    if fields == [] then [] else "&" + fields[0] + Prefixed(fields[1..])
  }

  /** The query string as the builder produces it: the mode field ends in
      an `&` of its own, and every later field is led by another one. */
  function QueryAsWritten(form: DmxConfigForm): string {
    match ModeField(form)
    case Some(mode) => mode + "&" + TailAsWritten(true, TrailingFields(form))
    case None => TailAsWritten(false, TrailingFields(form))
  }

  /** The query string with one `&` between neighbouring fields. */
  function Query(form: DmxConfigForm): string {
    Join(Fields(form), '&')
  }

  /** The outcome for a device URL and a query: a null or blank URL and a
      form without fields are rejected with the source's messages, in that
      order; otherwise the request goes to the device's internal endpoint. */
  function Outcome(artnetUrl: Option<string>, form: DmxConfigForm, query: string): OtaOutcome {
    if artnetUrl.None? || JavaBlank(artnetUrl.value) then Rejected(EmptyUrlMessage)
    else if Fields(form) == [] then Rejected(NoParamMessage)
    else Sent("https://" + artnetUrl.value + "/internal?" + query)
  }

  /** What the builder appends after the mode for the later fields: each
      led by an `&` once the mode is there, `&`-joined otherwise. */
  function TailAsWritten(modeSet: bool, fields: seq<string>): string {
    if modeSet then Prefixed(fields) else Join(fields, '&')
  }

  lemma {:induction false} PrefixedAppend(fields: seq<string>, f: string)
    ensures Prefixed(fields + [f]) == Prefixed(fields) + "&" + f
  {
    if fields != [] {
      assert (fields + [f])[1..] == fields[1..] + [f];
      PrefixedAppend(fields[1..], f);
    }
  }

  /** One more field: appended on its own to an empty query, after an `&` otherwise. */
  lemma TailAppend(modeSet: bool, fields: seq<string>, f: string)
    ensures TailAsWritten(modeSet, fields + [f]) ==
      if !modeSet && fields == [] then f else TailAsWritten(modeSet, fields) + "&" + f
  {
    if modeSet {
      PrefixedAppend(fields, f);
    } else if fields != [] {
      JoinAppend(fields, f, '&');
    } else {
      assert fields + [f] == [f];
    }
  }
  /** A parameter block keeps the builder's text equal to the head
      followed by the tail of the fields so far, and the first-parameter
      flag set exactly while nothing has been appended. */
  lemma ParamStep(head: string, modeSet: bool, fields: seq<string>, f: Option<string>,
                  url: string, isFirstParam: bool, url': string, isFirstParam': bool)
    requires url == head + TailAsWritten(modeSet, fields)
    requires isFirstParam <==> !modeSet && fields == []
    requires f.None? ==> url' == url && isFirstParam' == isFirstParam
    requires f.Some? ==> url' == url + (if isFirstParam then "" else "&") + f.value && !isFirstParam'
    ensures url' == head + TailAsWritten(modeSet, fields + Present(f))
    ensures isFirstParam' <==> !modeSet && fields + Present(f) == []
  {
    if f.Some? {
      TailAppend(modeSet, fields, f.value);
    } else {
      assert fields + Present(f) == fields;
    }
  }

  /** The mode field and its own `&`, when the mode is set. */
  function ModeText(form: DmxConfigForm): string {
    if ModeField(form).Some? then ModeField(form).value + "&" else []
  }

  /** The builder's query is the mode text followed by the later fields. */
  lemma QueryAsWrittenParts(form: DmxConfigForm)
    ensures QueryAsWritten(form) == ModeText(form) + TailAsWritten(ModeField(form).Some?, TrailingFields(form))
  {
    if ModeField(form).None? {
      assert ModeText(form) == [];
    }
  }

  /** One parameter block: an `&` unless it is the first parameter, then
      `key=value`; afterwards no parameter is the first. */
  method AppendParam(url: string, isFirstParam: bool, key: string, value: int)
    returns (url': string, isFirstParam': bool)
    ensures url' == url + (if isFirstParam then "" else "&") + Field(key, value)
    ensures !isFirstParam'
  {
    url' := url;
    if isFirstParam {
      isFirstParam' := false;
    } else {
      isFirstParam' := false;
      url' := url' + "&";
    }
    url' := url' + key;
    url' := url' + "=";
    url' := url' + IntToString(value);
  }

  /** `sendHttpRequestToDevice` up to the request: the URL is built with a
      string builder and a first-parameter flag. */
  method SendHttpRequestToDevice(artnetUrl: Option<string>, form: DmxConfigForm) returns (r: OtaOutcome)
    ensures r == Outcome(artnetUrl, form, QueryAsWritten(form))
  {
    var url := "https://";
    if artnetUrl.None? || JavaBlank(artnetUrl.value) {
      return Rejected(EmptyUrlMessage);
    }
    url := url + artnetUrl.value;
    url := url + "/internal?";
    ghost var prefix := url;
    assert prefix == "https://" + artnetUrl.value + "/internal?";
    var isFirstParam := true;

    ghost var modeText: string := [];
    if form.dmxMode.Some? && form.dmxMode.value != NoChange {
      var modeEnum := form.dmxMode.value - 1;
      url := url + DmxModeParam;
      url := url + "=";
      url := url + IntToString(modeEnum);
      isFirstParam := false;
      url := url + "&";
      modeText := Field(DmxModeParam, modeEnum) + "&";
      assert modeText == ModeText(form);
      assert url == prefix + modeText by {
        var digits := IntToString(modeEnum);
        ConcatAssoc(prefix, DmxModeParam, "=");
        ConcatAssoc(prefix, DmxModeParam + "=", digits);
        ConcatAssoc(prefix, DmxModeParam + "=" + digits, "&");
      }
    } else {
      assert url == prefix + modeText && modeText == ModeText(form);
    }
    ghost var modeSet := ModeField(form).Some?;
    ghost var head := url;
    assert url == head + TailAsWritten(modeSet, []);

    ghost var url0, first0 := url, isFirstParam;
    if form.dmxAddress.Some? && form.dmxAddress.value >= 0 && form.dmxAddress.value < AddressBound {
      url, isFirstParam := AppendParam(url, isFirstParam, DmxAddressParam, form.dmxAddress.value);
    }
    ParamStep(head, modeSet, [], AddressField(form), url0, first0, url, isFirstParam);
    ghost var fields := Present(AddressField(form));
    assert [] + fields == fields;

    url0, first0 := url, isFirstParam;
    if form.dmxUniverse.Some? && form.dmxUniverse.value >= 0 {
      url, isFirstParam := AppendParam(url, isFirstParam, DmxUniverseParam, form.dmxUniverse.value);
    }
    ParamStep(head, modeSet, fields, UniverseField(form), url0, first0, url, isFirstParam);
    fields := fields + Present(UniverseField(form));

    url0, first0 := url, isFirstParam;
    if form.receiverType.Some? && form.receiverType.value != NoChange {
      var receiverType := form.receiverType.value - 1;
      url, isFirstParam := AppendParam(url, isFirstParam, DmxReceiverTypeParam, receiverType);
    }
    ParamStep(head, modeSet, fields, ReceiverField(form), url0, first0, url, isFirstParam);
    fields := fields + Present(ReceiverField(form));

    assert fields == TrailingFields(form);
    QueryAsWrittenParts(form);
    assert url == prefix + QueryAsWritten(form) by {
      ConcatAssoc(prefix, modeText, TailAsWritten(modeSet, fields));
    }
    assert isFirstParam <==> Fields(form) == [];

    if isFirstParam {
      return Rejected(NoParamMessage);
    }
    return Sent(url);
  }

  /** No rendered field contains the separator. */
  lemma FieldHasNoAmpersand(key: string, value: int)
    requires '&' !in key
    ensures '&' !in Field(key, value)
  {
    var digits := IntToString(value);
    assert forall i :: 0 <= i < |digits| ==> digits[i] == '-' || '0' <= digits[i] <= '9' by {
      if value < 0 {
        assert digits == "-" + NatDigits(-value);
      }
    }
  }

  /** No field of a list contains the separator. */
  predicate Separable(fields: seq<string>) {
    forall k :: 0 <= k < |fields| ==> '&' !in fields[k]
  }

  lemma SeparableConcat(a: seq<string>, b: seq<string>)
    requires Separable(a) && Separable(b)
    ensures Separable(a + b)
  {
    assert forall k :: |a| <= k < |a + b| ==> (a + b)[k] == b[k - |a|];
  }

  lemma FieldsSeparable(form: DmxConfigForm)
    ensures Separable(TrailingFields(form)) && Separable(Fields(form))
  {
    FieldHasNoAmpersand(DmxModeParam, form.dmxMode.GetOr(0) - 1);
    FieldHasNoAmpersand(DmxAddressParam, form.dmxAddress.GetOr(0));
    FieldHasNoAmpersand(DmxUniverseParam, form.dmxUniverse.GetOr(0));
    FieldHasNoAmpersand(DmxReceiverTypeParam, form.receiverType.GetOr(0) - 1);
    var mode, address, universe, receiver :=
      Present(ModeField(form)), Present(AddressField(form)), Present(UniverseField(form)), Present(ReceiverField(form));
    assert Separable(mode) && Separable(address) && Separable(universe) && Separable(receiver);
    SeparableConcat(address, universe);
    SeparableConcat(address + universe, receiver);
    SeparableConcat(mode, TrailingFields(form));
  }

  /** Nothing is sent exactly when the mode and the receiver type are null
      or NO_CHANGE, the address is null or outside 0..511 and the universe
      is null or negative. */
  lemma NoParamIff(form: DmxConfigForm)
    ensures Fields(form) == [] <==>
      (form.dmxMode.None? || form.dmxMode.value == NoChange) &&
      (form.dmxAddress.None? || form.dmxAddress.value < 0 || form.dmxAddress.value >= AddressBound) &&
      (form.dmxUniverse.None? || form.dmxUniverse.value < 0) &&
      (form.receiverType.None? || form.receiverType.value == NoChange)
  {
  }

  /** A blank device URL is rejected before the form is looked at. */
  lemma BlankUrlRejected(artnetUrl: Option<string>, form: DmxConfigForm, query: string)
    requires artnetUrl.None? || JavaBlank(artnetUrl.value)
    ensures Outcome(artnetUrl, form, query) == Rejected(EmptyUrlMessage)
  {
  }

  /** Each field led by an `&` is an `&` followed by the joined fields. */
  lemma {:induction false} PrefixedJoin(fields: seq<string>)
    requires fields != []
    ensures Prefixed(fields) == "&" + Join(fields, '&')
  {
    if |fields| > 1 {
      PrefixedJoin(fields[1..]);
    }
  }

  /** Splitting the intended query at `&` gives back exactly the fields,
      in order. */
  lemma QuerySplitsIntoFields(form: DmxConfigForm)
    requires Fields(form) != []
    ensures Split(Query(form), '&') == Fields(form)
  {
    FieldsSeparable(form);
    SplitJoin(Fields(form), '&');
  }

  /** The mode's own `&` followed by the `&`-led fields is the join with an
      empty field after the mode. */
  lemma ModeTailJoin(m: string, rest: seq<string>)
    ensures m + "&" + Prefixed(rest) == Join([m, ""] + rest, '&')
  {
    var all := [m, ""] + rest;
    assert all[1..] == [""] + rest;
    if rest != [] {
      PrefixedJoin(rest);
      assert ([""] + rest)[1..] == rest;
      assert Join([""] + rest, '&') == "" + "&" + Join(rest, '&');
    } else {
      assert all == [m, ""];
    }
  }

  /** As written, a mode field is followed by an empty field: the query
      splits into the mode, "", and the later fields.  Without a mode the
      query is the intended one. */
  lemma AsWrittenSplit(form: DmxConfigForm)
    ensures ModeField(form).Some? ==>
      Split(QueryAsWritten(form), '&') == [ModeField(form).value, ""] + TrailingFields(form)
    ensures ModeField(form).None? ==> QueryAsWritten(form) == Query(form)
  {
    FieldsSeparable(form);
    var rest := TrailingFields(form);
    if ModeField(form).Some? {
      var m := ModeField(form).value;
      FieldHasNoAmpersand(DmxModeParam, form.dmxMode.value - 1);
      assert Separable([m, ""]);
      SeparableConcat([m, ""], rest);
      assert QueryAsWritten(form) == m + "&" + Prefixed(rest);
      ModeTailJoin(m, rest);
      var all := [m, ""] + rest;
      SplitJoin(all, '&');
      assert Split(Join(all, '&'), '&') == all;
    } else {
      assert Fields(form) == rest;
    }
  }

  /** A mode with an address: as written the query carries `&&`, where one
      `&` was meant. */
  lemma ModeThenAddressCounterexample()
    ensures var form := DmxConfigForm(Some(2), Some(1), None, None);
      QueryAsWritten(form) == "dmxMode=1&&dmxAddress=1" &&
      Query(form) == "dmxMode=1&dmxAddress=1"
  {
    var form := DmxConfigForm(Some(2), Some(1), None, None);
    var mode, address := "dmxMode=1", "dmxAddress=1";
    assert IntToString(1) == "1";
    assert DmxModeParam + "=" + "1" == mode;
    assert DmxAddressParam + "=" + "1" == address;
    assert ModeField(form) == Some(mode) && AddressField(form) == Some(address);
    assert TrailingFields(form) == [address];
    assert Prefixed([address]) == "&" + address + Prefixed([]);
    assert Fields(form) == [mode, address];
    assert Join([mode, address], '&') == mode + "&" + address;
  }

  /** A mode alone: as written the query ends in a dangling `&`. */
  lemma ModeAloneCounterexample()
    ensures var form := DmxConfigForm(Some(3), None, None, Some(0));
      QueryAsWritten(form) == "dmxMode=2&" && Query(form) == "dmxMode=2"
  {
    assert IntToString(2) == "2";
  }
}
