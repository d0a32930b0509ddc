/**
 * The records the replication client hands to its caller, and the failures it can
 * raise while producing them.
 *
 * `pyosm/model.py` is not part of this model; the shapes below follow the
 * constructor calls in `pyosm/parsing.py`: a node carries tags only, a way its node
 * references and tags, a relation its members and tags, a changeset its tags.
 */
module Records {
  import opened Wrappers

  /**
   * A timestamp attribute: `Parsed(iso)` is the instant `isoToDatetime(iso)` denotes
   * (used when `parse_timestamps` is set), `Raw(text)` the attribute text passed through.
   */
  datatype Stamp = Parsed(iso: string) | Raw(text: string)

  /** A coordinate attribute; `Coord(text)` stands for `float(text)`. */
  datatype Coord = Coord(text: string)

  datatype Tag = Tag(key: string, value: string)

  datatype Member = Member(memberType: string, ref: int, role: string)

  datatype Primitive =
    | Node(id: int, version: Option<int>, changeset: Option<int>, user: Option<string>,
           uid: Option<int>, visible: Option<bool>, timestamp: Option<Stamp>,
           lat: Option<Coord>, lon: Option<Coord>, tags: seq<Tag>)
    | Way(id: int, version: Option<int>, changeset: Option<int>, user: Option<string>,
          uid: Option<int>, visible: Option<bool>, timestamp: Option<Stamp>,
          nds: seq<int>, tags: seq<Tag>)
    | Relation(id: int, version: Option<int>, changeset: Option<int>, user: Option<string>,
               uid: Option<int>, visible: Option<bool>, timestamp: Option<Stamp>,
               members: seq<Member>, tags: seq<Tag>)
    | Changeset(id: int, createdAt: Option<Stamp>, closedAt: Option<Stamp>, open: bool,
                minLat: Option<Coord>, maxLat: Option<Coord>, minLon: Option<Coord>,
                maxLon: Option<Coord>, user: Option<string>, uid: Option<int>, tags: seq<Tag>)

  /** The Python exception each failure stands for is named beside it. */
  datatype Error =
    | MissingAttribute(name: string)        // KeyError on elem.attrib[name]
    | NotAnInteger(text: string)            // ValueError from int(text)
    | NoOpenObject(child: string)           // AttributeError: a child element while obj is None
    | NoChildList(child: string)            // AttributeError: the open record has no such list
    | EmptyLine                             // IndexError from line[0] in readState
    | MalformedLine(line: string)           // ValueError unpacking line.split(sep)
    | EmptySeparator                        // ValueError from line.split('')
    | MissingKey(key: string)               // KeyError on state[key]
    | BadTimestamp(text: string)            // ValueError from strptime
    | NegativeSleep                         // IOError (errno 22) from time.sleep(negative)
    | StateDirMissing                       // the "state_dir doesn't exist" Exception
    | HttpError(code: int)                  // urllib2.HTTPError that is not retried
    | NetworkError                          // urllib2.URLError and other I/O failures
}
