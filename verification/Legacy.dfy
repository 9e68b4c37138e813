/**
  Reading settings.json of any age (settings.go:643-732): a newer schema is refused, and fields that did not exist
  when the file was written get the default that they were introduced with.
 */
module UnboundLegacy {
  import opened Text
  import opened UnboundSettings
  import opened UnboundApply

  const SCHEMA_VERSION := 1

  /** Which of the fields are there whose absence is told apart from their zero value. */
  datatype Present = Present(clientTimeout: bool, prefetchKey: bool, aggressiveNsec: bool, ednsBufferSize: bool,
                             logVerbosity: bool)

  const ALL_PRESENT := Present(true, true, true, true, true)

  /**
    A decoded file: its schema version, or zero; its late fields; and the record, with zero values where it has
    none.
   */
  datatype Document = Document(version: int, present: Present, nullReverse: bool, s: Settings)

  /** Defaults for values that no valid record has. */
  function FilledEmpty(nullReverse: bool, s: Settings): Settings {
    s.(reverseZones := if nullReverse then DEFAULT_REVERSE else s.reverseZones,
       networkMode := if s.networkMode == "" then IPV4_MODE else s.networkMode,
       resourceProfile := if s.resourceProfile == "" then "medium" else s.resourceProfile,
       serveExpiredTtl := if s.serveExpiredTtl == 0 then 86400 else s.serveExpiredTtl)
  }

  /** Defaults for fields that are not there. */
  function FilledAbsent(present: Present, s: Settings): Settings {
    s.(serveExpiredClientTimeout := if present.clientTimeout then s.serveExpiredClientTimeout else 1800,
       prefetchKey := !present.prefetchKey || s.prefetchKey,
       aggressiveNsec := !present.aggressiveNsec || s.aggressiveNsec,
       ednsBufferSize := if present.ednsBufferSize then s.ednsBufferSize else 1232,
       logVerbosity := if present.logVerbosity then s.logVerbosity else 1)
  }

  function Filled(d: Document): Settings { FilledAbsent(d.present, FilledEmpty(d.nullReverse, d.s)) }

  ghost function LoadedDocument(ip: Netip, d: Document): Option<Settings> {
    if d.version > SCHEMA_VERSION || !Valid(ip, Filled(d)) then None else Some(Filled(d))
  }

  method Load(ip: Netip, d: Document) returns (r: Option<Settings>)
    ensures r == LoadedDocument(ip, d)
  {
    hide Valid, Filled;
    if d.version > SCHEMA_VERSION {
      return None;
    }
    var s := Filled(d);
    var ok := Validate(ip, s);
    return if ok then Some(s) else None;
  }

  /** The file that an apply writes. */
  function Written(p: Proposal): Document { Document(SCHEMA_VERSION, ALL_PRESENT, p.nullReverse, p.s) }

  lemma NothingToFill(ip: Netip, s: Settings, nullReverse: bool)
    requires Valid(ip, s)
    ensures FilledEmpty(nullReverse, s) == if nullReverse then s.(reverseZones := DEFAULT_REVERSE) else s
  {
    assert ProfileSizes("").None? && ProfileSizes(s.resourceProfile).Some?;
    assert s.networkMode != "" && s.serveExpiredTtl != 0;
    hide Valid;
  }

  /**
    What an apply wrote is read back as it was, up to a null list of reverse zones: for no valid record does any of
    the other defaults apply.
   */
  lemma WrittenIsLoaded(ip: Netip, p: Proposal, f: Files)
    requires Valid(ip, p.s) && f.settings == Some(p)
    ensures LoadedDocument(ip, Written(p)) == Loaded(ip, f)
    ensures !p.nullReverse ==> LoadedDocument(ip, Written(p)) == Some(p.s)
  {
    hide Valid;
    NothingToFill(ip, p.s, p.nullReverse);
  }

  /** A file that has all late fields is read as it stands exactly when its list is not null and no value is empty. */
  lemma StatedIsKept(d: Document)
    requires d.present == ALL_PRESENT && d.s.reverseZones != DEFAULT_REVERSE
    ensures Filled(d) == d.s <==>
            !d.nullReverse && d.s.networkMode != "" && d.s.resourceProfile != "" && d.s.serveExpiredTtl != 0
  {
    assert FilledAbsent(d.present, FilledEmpty(d.nullReverse, d.s)) == FilledEmpty(d.nullReverse, d.s);
    assert Filled(d).networkMode != "" && Filled(d).resourceProfile != "" && Filled(d).serveExpiredTtl != 0;
  }
}
