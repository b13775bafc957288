/**
 * The FCP command base of pluginbase: a command name, the "key=value" fields it sends in
 * insertion order, and an optional payload. The connection it is executed on is foreign code;
 * it is modelled by what it is given to execute.
 */
module FcpCommandBaseModel {
  import opened Wrappers
  import opened JavaText
  import opened FreenetKeys

  /** The bytes of an input stream sent as payload. */
  type Payload = seq<int8>

  /** What a command presents to the connection: its name, the text it writes and its payload. */
  datatype Frame = Frame(name: Option<string>, text: string, payload: Option<Payload>, length: int)

  /** The FCP connection, as the list of commands it has executed. */
  class Connection {
    var executed: seq<Frame>

    constructor ()
      ensures executed == []
    {
      executed := [];
    }

    method Execute(f: Frame)
      modifies this`executed
      ensures executed == old(executed) + [f]
    {
      executed := executed + [f];
    }
  }

  /** One field of a command. */
  function FieldLine(key: string, value: string): string {
    key + "=" + value
  }

  /** The identifier of a request: the page name, the caller's suffix and the time, joined by '_'. */
  function RequestIdentifier(pageName: string, suffix: string, time: int): string {
    pageName + "_" + suffix + "_" + IntToString(time)
  }

  /** The text `write` emits: every field followed by a newline, in order. */
  function Lines(fields: seq<string>): string
    decreases |fields|
  {
    if |fields| == 0 then "" else Lines(fields[..|fields| - 1]) + fields[|fields| - 1] + "\n"
  }

  /** The written text is the fields joined by newlines, with a final newline. */
  lemma {:induction false} LinesIsJoin(fields: seq<string>)
    requires |fields| >= 1
    ensures Lines(fields) == Join(fields, "\n") + "\n"
    decreases |fields|
  {
    if |fields| > 1 {
      var init := fields[..|fields| - 1];
      LinesIsJoin(init);
      JoinSnoc(init, fields[|fields| - 1], "\n");
      assert init + [fields[|fields| - 1]] == fields;
    }
  }

  /**
   * The receiving side reads the fields back: splitting the written text at the newlines gives
   * the fields, when none holds a newline and the last is not empty.
   */
  lemma LinesSplitBack(fields: seq<string>)
    requires |fields| >= 1 && fields[|fields| - 1] != ""
    requires forall k :: 0 <= k < |fields| ==> '\n' !in fields[k]
    ensures Split(Lines(fields), '\n') == fields
  {
    LinesIsJoin(fields);
    var parts := fields + [""];
    assert forall k :: 0 <= k < |parts| ==> '\n' !in parts[k];
    JoinSnoc(fields, "", "\n");
    assert Lines(fields) == Join(parts, "\n");
    FieldsJoin(parts, '\n');
    JoinContainsSeparator(parts, '\n');
    assert StripTrailingEmpty(parts) == StripTrailingEmpty(fields);
  }

  /** `FcpCommandBase`: a command built field by field and sent on its connection. */
  class FcpCommand {
    /** The name of the page the command belongs to; None for a command made without a page. */
    const pageName: Option<string>
    const connection: Connection
    var commandName: Option<string>
    var fields: seq<string>
    var dataStream: Option<Payload>
    var dataLength: int

    constructor (connection: Connection, pageName: Option<string>)
      ensures this.connection == connection && this.pageName == pageName
      ensures commandName == None && fields == [] && dataStream == None && dataLength == 0
    {
      this.connection := connection;
      this.pageName := pageName;
      commandName := None;
      fields := [];
      dataStream := None;
      dataLength := 0;
    }

    /** `hasPayload()`: a stream was given to the last send. */
    predicate HasPayload()
      reads this
    {
      dataStream.Some?
    }

    /**
     * `init(command, suffix)`: the fields are cleared and the command named; the first field is
     * the identifier built from the page name, the suffix (empty when null) and the time. A
     * command without a page throws once the fields are cleared.
     */
    method Init(command: string, suffix: Option<string>, time: int) returns (st: Status)
      modifies this`fields, this`commandName
      ensures commandName == Some(command)
      ensures pageName.None? ==> st == Failed(EXCEPTION) && fields == []
      ensures pageName.Some? ==>
        st == Done && fields == [FieldLine("Identifier", RequestIdentifier(pageName.value, suffix.GetOr(""), time))]
    {
      var s := if suffix.None? then "" else suffix.value;
      fields := [];
      commandName := Some(command);
      if pageName.None? {
        return Failed(EXCEPTION);
      }
      st := Field("Identifier", RequestIdentifier(pageName.value, s, time));
    }

    /** `field(key, value)`: the line "key=value" goes after the fields so far. */
    method Field(key: string, value: string) returns (st: Status)
      modifies this`fields
      ensures st == Done && fields == old(fields) + [FieldLine(key, value)]
    {
      fields := fields + [FieldLine(key, value)];
      st := Done;
    }

    /** `field(key, n)` for an int value, written in decimal. */
    method FieldInt(key: string, n: int) returns (st: Status)
      requires InInt32(n)
      modifies this`fields
      ensures st == Done && fields == old(fields) + [FieldLine(key, IntToString(n))]
    {
      st := Field(key, IntToString(n));
    }

    /** `write(writer)`: every field followed by a newline, in order. */
    method Write() returns (text: string)
      ensures text == Lines(fields)
    {
      text := "";
      var i := 0;
      while i < |fields|
        invariant 0 <= i <= |fields|
        invariant text == Lines(fields[..i])
      {
        assert fields[..i + 1][..i] == fields[..i];
        text := text + fields[i] + "\n";
        i := i + 1;
      }
      assert fields[..i] == fields;
    }

    /**
     * `send(stream, length)`: the payload and its length are recorded first, then the command
     * is executed, the connection seeing its name, its written fields and the payload.
     */
    method Send(stream: Option<Payload>, length: int)
      modifies this`dataStream, this`dataLength, connection`executed
      ensures dataStream == stream && dataLength == length && (HasPayload() <==> stream.Some?)
      ensures connection.executed == old(connection.executed) + [Frame(commandName, Lines(fields), stream, length)]
    {
      dataStream := stream;
      dataLength := length;
      var text := Write();
      connection.Execute(Frame(commandName, text, if HasPayload() then dataStream else None, dataLength));
    }

    /** `send()`: a send without payload. */
    method SendPlain()
      modifies this`dataStream, this`dataLength, connection`executed
      ensures !HasPayload() && dataLength == 0
      ensures connection.executed == old(connection.executed) + [Frame(commandName, Lines(fields), None, 0)]
    {
      Send(None, 0);
    }
  }
}
