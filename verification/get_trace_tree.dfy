/**
 * The `get_trace_tree` RPC method's parameter checks and its reading of
 * the trace id from an X-Ray tracing header such as
 * `Root=1-5759e988-bd862e3fe1be46a994272793;Sampled=1`.
 */
module GetTraceTree {
  import opened Wrappers
  import Text

  const InvalidHeader := "invalid tracing header provided"
  const MissingHeader := "missing required param \"TracingHeader\""
  const HeaderErrorPrefix := "error while getting trace_id from the tracing header: "

  /** A `;`-piece whose text before the first `=` reads "root" in any letter case. */
  predicate IsRootPiece(piece: string)
  {
    Text.ToLower(Text.Split(piece, '=')[0]) == "root"
  }

  /**
   * What a root piece yields: the text between the first and the second
   * `=`; an empty value is refused, and a piece with no `=` at all reads
   * past the end of the split (a panic in Go).
   */
  function RootPieceValue(piece: string): (r: Result<string, GoError>)
    ensures r.Ok? ==> r.value != "" && '=' !in r.value && '=' in piece
    ensures '=' !in piece ==> r == Err(Panic(IndexOutOfRange))
  {
    var parts := Text.Split(piece, '=');
    if |parts| < 2 then
      Text.NoSepIndex(piece, '=');
      Err(Panic(IndexOutOfRange))
    else if parts[1] != "" then
      SplitHasSep(piece, '=');
      Ok(parts[1])
    else Err(Failure(InvalidHeader))
  }

  /** A split into two or more pieces means the separator occurs. */
  lemma SplitHasSep(s: string, sep: char)
    requires |Text.Split(s, sep)| >= 2
    ensures sep in s
  {
    var k := Text.IndexOf(s, sep);
    assert k < |s|;
  }

  /** The loop of `getTracIdFromTracingHeader` over the `;`-pieces: the first root piece decides. */
  function RootValue(pieces: seq<string>): Result<string, GoError>
  {
    if pieces == [] then Err(Failure(InvalidHeader))
    else if IsRootPiece(pieces[0]) then RootPieceValue(pieces[0])
    else RootValue(pieces[1..])
  }

  /** `getTracIdFromTracingHeader`. */
  function TraceIdFromTracingHeader(header: string): Result<string, GoError>
  {
    RootValue(Text.Split(header, ';'))
  }

  /**
   * The outcome is decided by the first root piece alone, whatever comes
   * after it; with no root piece the header is invalid.
   */
  lemma {:induction false} FirstRootPieceDecides(pieces: seq<string>)
    ensures (forall i :: 0 <= i < |pieces| ==> !IsRootPiece(pieces[i])) ==> RootValue(pieces) == Err(Failure(InvalidHeader))
    ensures forall i :: 0 <= i < |pieces| && IsRootPiece(pieces[i]) && (forall j :: 0 <= j < i ==> !IsRootPiece(pieces[j])) ==>
      RootValue(pieces) == RootPieceValue(pieces[i])
  {
    if pieces != [] {
      FirstRootPieceDecides(pieces[1..]);
      forall i | 0 < i < |pieces| ensures pieces[1..][i - 1] == pieces[i] { }
      if !IsRootPiece(pieces[0]) {
        forall i | 0 <= i < |pieces| && IsRootPiece(pieces[i]) && (forall j :: 0 <= j < i ==> !IsRootPiece(pieces[j]))
          ensures RootValue(pieces) == RootPieceValue(pieces[i])
        {
          assert i > 0;
          assert forall j :: 0 <= j < i - 1 ==> !IsRootPiece(pieces[1..][j]) by {
            forall j | 0 <= j < i - 1 ensures !IsRootPiece(pieces[1..][j]) {
              assert pieces[1..][j] == pieces[j + 1];
            }
          }
        }
      }
    }
  }

  /**
   * A header written as `Root=<id>;<rest>` gives back `<id>`, for any
   * non-empty id free of `;` and `=` and any rest.
   */
  lemma RootHeaderRoundTrip(id: string, rest: string)
    requires id != "" && ';' !in id && '=' !in id
    ensures TraceIdFromTracingHeader("Root=" + id + ";" + rest) == Ok(id)
  {
    var piece := "Root=" + id;
    assert ';' !in piece;
    Text.IndexAfterPrefix(piece, ';', rest);
    var header := piece + [';'] + rest;
    assert "Root=" + id + ";" + rest == header;
    assert header[..|piece|] == piece;
    assert Text.Split(header, ';')[0] == piece;
    Text.IndexAfterPrefix("Root", '=', id);
    assert piece == "Root" + ['='] + id;
    assert piece[..4] == "Root";
    assert piece[5..] == id;
    Text.NoSepIndex(id, '=');
    assert Text.Split(piece, '=') == ["Root", id];
    assert Text.ToLower("Root") == "root";
  }

  /** A leading piece other than a root piece (such as `Sampled=1`) changes nothing. */
  lemma OtherPieceIgnored(piece: string, header: string)
    requires ';' !in piece && !IsRootPiece(piece)
    ensures TraceIdFromTracingHeader(piece + ";" + header) == TraceIdFromTracingHeader(header)
  {
    Text.IndexAfterPrefix(piece, ';', header);
    var s := piece + [';'] + header;
    assert piece + ";" + header == s;
    assert s[..|piece|] == piece;
    assert s[|piece| + 1..] == header;
  }

  /**
   * The checks `RPCMethod` makes before loading any configuration: an
   * empty header is refused before parsing, and a parse failure is
   * prefixed.
   */
  function ValidateTracingHeader(header: string): (r: Result<string, GoError>)
    ensures header == "" ==> r == Err(Failure(MissingHeader))
    ensures r.Ok? <==> header != "" && TraceIdFromTracingHeader(header).Ok?
    ensures r.Ok? ==> r == TraceIdFromTracingHeader(header)
    ensures header != "" && TraceIdFromTracingHeader(header).Err? ==>
      r.Err? && r.error == Wrap(HeaderErrorPrefix, TraceIdFromTracingHeader(header).error)
  {
    if header == "" then Err(Failure(MissingHeader))
    else
      match TraceIdFromTracingHeader(header)
      case Ok(id) => Ok(id)
      case Err(e) => Err(Wrap(HeaderErrorPrefix, e))
  }
}
