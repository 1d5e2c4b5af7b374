/** The file-name stamp of utils/timestamps.py. `str(datetime.now())` is taken as a parameter;
    the clock itself is not modelled. */
module Timestamps {

  /** `text.replace(from, to)` for one-character arguments. */
  function ReplaceChar(text: string, from: char, to: char): (r: string)
    ensures |r| == |text|
    ensures forall i :: 0 <= i < |text| && text[i] == from ==> r[i] == to
    ensures forall i :: 0 <= i < |text| && text[i] != from ==> r[i] == text[i]
  {
    if text == [] then []
    else [if text[0] == from then to else text[0]] + ReplaceChar(text[1..], from, to)
  }

  /** The characters get_stamp turns into '-'. */
  predicate IsStampSeparator(c: char)
  {
    c == ':' || c == '.' || c == ' '
  }

  /** get_stamp applied to the text of the current time: ':' then '.' then ' ' become '-'. */
  function GetStamp(now: string): (stamp: string)
    ensures |stamp| == |now|
    ensures ':' !in stamp && '.' !in stamp && ' ' !in stamp
    ensures forall i :: 0 <= i < |now| && IsStampSeparator(now[i]) ==> stamp[i] == '-'
    ensures forall i :: 0 <= i < |now| && !IsStampSeparator(now[i]) ==> stamp[i] == now[i]
  {
    ReplaceChar(ReplaceChar(ReplaceChar(now, ':', '-'), '.', '-'), ' ', '-')
  }

  /** A stamp is left alone by a second pass. */
  lemma GetStampIdempotent(now: string)
    ensures GetStamp(GetStamp(now)) == GetStamp(now)
  {
    var stamp := GetStamp(now);
    assert forall i :: 0 <= i < |stamp| ==> !IsStampSeparator(stamp[i]);
  }
}
