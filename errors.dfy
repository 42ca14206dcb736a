/** `PybooruError`: the exception the client raises. Its message is the
    given text, expanded with the HTTP status, its reason and description
    and the URL when all of them are known. */
module Errors {
  import opened Wrappers
  import opened Strings
  import opened Decimal

  /** `http_status_codes`: each known status code with its reason phrase
      and description. */
  type StatusTable = map<int, (string, string)>

  datatype PybooruError = PybooruError(msg: string, code: Option<int>)

  /** `PybooruError(err_msg, err_code, url)` for the status table `table`. */
  function NewPybooruError(table: StatusTable, errMsg: string, errCode: Option<int> := None,
                           url: Option<string> := None): (e: PybooruError)
    ensures e.code == errCode
    ensures e.msg != errMsg <==> errCode.Some? && errCode.value in table && url.Some?
  {
    if errCode.Some? && errCode.value in table && url.Some? then
      var code := errCode.value;
      var msg := IntToDecimal(code) + ": " + table[code].0 + ", " + table[code].1 + " -- "
                 + errMsg + " -- URL: " + url.value;
      assert |msg| > |errMsg|;
      PybooruError(msg, errCode)
    else
      PybooruError(errMsg, errCode)
  }

  /** An expanded message is the status code, the reason phrase and the
      description, then the original message and the URL. It starts with
      the code and the reason phrase, the code is read back from the text
      before the first `:`, and it ends with the message and the URL. */
  lemma ExpandedMessage(table: StatusTable, errMsg: string, code: int, url: string)
    requires code in table
    ensures var m := NewPybooruError(table, errMsg, Some(code), Some(url)).msg;
      var tail := " -- " + errMsg + " -- URL: " + url;
      m == IntToDecimal(code) + ": " + table[code].0 + ", " + table[code].1 + tail
      && IntToDecimal(code) + ": " + table[code].0 <= m
      && |tail| <= |m| && m[|m| - |tail|..] == tail
      && 0 <= IndexOf(m, ':') && ParseInt(m[..IndexOf(m, ':')]) == Some(code)
  {
    var m := NewPybooruError(table, errMsg, Some(code), Some(url)).msg;
    var d := IntToDecimal(code);
    var head := d + ": " + table[code].0 + ", " + table[code].1;
    var tail := " -- " + errMsg + " -- URL: " + url;
    assert m == head + tail;
    assert m[|m| - |tail|..] == tail;
    assert (d + ": " + table[code].0) <= m by {
      assert m == (d + ": " + table[code].0) + (", " + table[code].1 + tail);
    }
    DecimalAvoids(code, ':');
    assert m[|d|] == ':' && m[..|d|] == d;
    assert IndexOf(m, ':') == |d|;
    ParseIntToDecimal(code);
  }
}
