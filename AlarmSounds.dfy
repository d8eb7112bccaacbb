/** The fixed catalogue of alert sounds. Each case is stored by its raw
    string value; the same string is the case's `id` and, with ".wav"
    appended, the name of the bundled audio resource. */
module AlarmSounds {
  import opened Wrappers

  datatype AlarmSound = Alarm | Chimes | Soft | Beacon | Bell

  /** `allCases`, in declaration order. */
  const AllSounds: seq<AlarmSound> := [Alarm, Chimes, Soft, Beacon, Bell]

  /** The raw value is the case name: the display name with its first
      letter in lower case. */
  function RawValue(s: AlarmSound): (raw: string)
    ensures |raw| == |DisplayName(s)| && raw[1..] == DisplayName(s)[1..]
    ensures 'A' <= DisplayName(s)[0] <= 'Z' && raw[0] as int == DisplayName(s)[0] as int + 32
  {
    match s
    case Alarm => "alarm"
    case Chimes => "chimes"
    case Soft => "soft"
    case Beacon => "beacon"
    case Bell => "bell"
  }

  /** `Identifiable.id`. */
  function Id(s: AlarmSound): (id: string)
    ensures id == RawValue(s)
  {
    RawValue(s)
  }

  function DisplayName(s: AlarmSound): (name: string)
    ensures name != []
  {
    match s
    case Alarm => "Alarm"
    case Chimes => "Chimes"
    case Soft => "Soft"
    case Beacon => "Beacon"
    case Bell => "Bell"
  }

  function ResourceFileName(s: AlarmSound): (file: string)
    ensures |file| == |RawValue(s)| + 4
    ensures file[..|RawValue(s)|] == RawValue(s) && file[|RawValue(s)|..] == ".wav"
  {
    RawValue(s) + ".wav"
  }

  /** `init?(rawValue:)`: only the five raw values decode; there is no
      fallback case. */
  function FromRawValue(raw: string): (r: Option<AlarmSound>)
    ensures r.Some? ==> RawValue(r.value) == raw
    ensures r.None? ==> forall s: AlarmSound :: RawValue(s) != raw
  {
    if raw == "alarm" then Some(Alarm)
    else if raw == "chimes" then Some(Chimes)
    else if raw == "soft" then Some(Soft)
    else if raw == "beacon" then Some(Beacon)
    else if raw == "bell" then Some(Bell)
    else None
  }

  lemma {:induction false} AllSoundsIsTheCatalogue()
    ensures |AllSounds| == 5
    ensures forall i, j :: 0 <= i < j < |AllSounds| ==> AllSounds[i] != AllSounds[j]
    ensures forall s: AlarmSound :: s in AllSounds
  {
    forall s: AlarmSound ensures s in AllSounds {
      match s
      case Alarm => assert AllSounds[0] == s;
      case Chimes => assert AllSounds[1] == s;
      case Soft => assert AllSounds[2] == s;
      case Beacon => assert AllSounds[3] == s;
      case Bell => assert AllSounds[4] == s;
    }
  }

  lemma RawValueRoundTrip(s: AlarmSound)
    ensures FromRawValue(RawValue(s)) == Some(s)
  {
  }

  lemma RawValueInjective(s: AlarmSound, t: AlarmSound)
    ensures RawValue(s) == RawValue(t) ==> s == t
  {
    RawValueRoundTrip(s);
    RawValueRoundTrip(t);
  }

  lemma DisplayNameInjective(s: AlarmSound, t: AlarmSound)
    ensures DisplayName(s) == DisplayName(t) ==> s == t
  {
    if s != t {
      assert DisplayName(s)[0] != DisplayName(t)[0] || DisplayName(s)[2] != DisplayName(t)[2];
    }
  }
}
