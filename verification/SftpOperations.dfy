/**
 The SFTP operations on a path (src/fuse/sftp/path.c) and on a handle (src/fuse/sftp/handle.c). Each
 one sends a request, waits for the reply, judges it and ends with one call to its caller: cb_success
 with the reply or cb_error with an error code.
 */
module SftpOperations {
  import opened Errno
  import opened Options
  import E = SftpExchange

  // src/lib/sftp/protocol.h
  const SSH_FXP_STATUS := 101
  const SSH_FXP_HANDLE := 102
  const SSH_FXP_DATA := 103
  const SSH_FXP_NAME := 104
  const SSH_FXP_ATTRS := 105
  const SSH_FXP_EXTENDED_REPLY := 201

  datatype Operation =
    | PathGetattr(what: string) | PathOpen(what: string) | PathMkdir | PathRm(what: string) | PathSetattr
    | HandleFgetattr | HandleFsetattr | HandleFsync | HandleFstatat | HandlePread | HandlePwrite
    | HandleReaddir | HandleLock | HandleUnlock

  predicate Implemented(op: Operation) { op != HandleLock && op != HandleUnlock }

  predicate TakesPath(op: Operation) {
    op.PathGetattr? || op.PathOpen? || op.PathMkdir? || op.PathRm? || op.PathSetattr? || op.HandleFstatat?
  }

  /** The text that selects the message to send is one the operation knows. */
  predicate Known(op: Operation) {
    match op
    case PathGetattr(what) => what == "getattr" || what == "statvfs" || what == "readlink"
    case PathOpen(what) => what == "open" || what == "opendir"
    case PathRm(what) => what == "unlink" || what == "rmdir"
    case _ => true
  }

  /** Operations that are answered by a status only. */
  predicate AnsweredByStatus(op: Operation) {
    op.PathMkdir? || op.PathRm? || op.PathSetattr? || op.HandleFsetattr? || op.HandleFsync? || op.HandlePwrite?
  }

  function ExpectedKind(op: Operation): nat {
    match op
    case PathGetattr(what) =>
      if what == "getattr" then SSH_FXP_ATTRS else if what == "statvfs" then SSH_FXP_EXTENDED_REPLY else SSH_FXP_NAME
    case PathOpen(_) => SSH_FXP_HANDLE
    case HandleFgetattr | HandleFstatat => SSH_FXP_ATTRS
    case HandlePread => SSH_FXP_DATA
    case HandleReaddir => SSH_FXP_NAME
    case _ => SSH_FXP_STATUS
  }

  /** The kinds of reply, by number, and that a status alone is never what the others ask for. */
  lemma ExpectedKinds(op: Operation)
    requires Implemented(op) && Known(op)
    ensures ExpectedKind(op) == 101 <==> AnsweredByStatus(op)
    ensures ExpectedKind(op) == 102 <==> op == PathOpen("open") || op == PathOpen("opendir")
    ensures ExpectedKind(op) == 103 <==> op == HandlePread
    ensures ExpectedKind(op) == 104 <==> op == PathGetattr("readlink") || op == HandleReaddir
    ensures ExpectedKind(op) == 105 <==> op == PathGetattr("getattr") || op == HandleFgetattr || op == HandleFstatat
    ensures ExpectedKind(op) == 201 <==> op == PathGetattr("statvfs")
  {
  }

  /** The reply is the one the operation asked for. */
  predicate Answers(op: Operation, p: E.Packet) {
    p.kind == ExpectedKind(op) && (AnsweredByStatus(op) ==> p.code == 0)
  }

  datatype Callback = Success(reply: E.Packet) | Error(code: nat)

  /**
   What an operation meets: the result of the path conversion, of the send, the error left by a failed
   send, and the request as it is when the wait returns.
   */
  datatype Course = Course(converted: int, sent: int, sendError: nat, request: E.Request)

  predicate Waits(op: Operation, c: Course) {
    && Implemented(op) && Known(op) && (TakesPath(op) ==> c.converted != -1)
    && (c.sent > 0 || (op.HandleFstatat? && c.sent == 0)) // fstatat also waits after a send that gives 0
  }

  /** The reply that finished the request, if the operation got that far. */
  function Reply(op: Operation, c: Course): Option<E.Packet> {
    if Waits(op, c) && c.request.pc == E.Done(true) then c.request.packet else None
  }

  predicate WellReturned(c: Course) {
    && c.request.pc.Done?
    && (c.request.pc.result ==> c.request.packet.Some?)
  }

  /** Exactly one callback, the right one, with the code that goes with what failed, and never with code 0. */
  predicate OneCallback(op: Operation, c: Course, calls: seq<Callback>) {
    |calls| == 1 &&
    var reply := Reply(op, c);
    var call := calls[0];
    && (call.Success? <==> reply.Some? && Answers(op, reply.value))
    && (call.Success? ==> call.reply == reply.value)
    && (call.Error? ==> call.code != 0)
    && (call.Error? && reply.Some? && reply.value.kind == SSH_FXP_STATUS && reply.value.linuxError != 0 ==>
          call.code == reply.value.linuxError)
    && (call.Error? && reply.Some? && reply.value.kind == SSH_FXP_STATUS && reply.value.linuxError == 0 ==>
          call.code == if c.request.error == 0 || op == HandleFgetattr || op == HandleFstatat then EIO
                       else c.request.error)
    && (call.Error? && reply.Some? && reply.value.kind != SSH_FXP_STATUS ==>
          call.code == if (op.PathGetattr? || op == HandleFgetattr) && c.request.error != 0 then c.request.error
                       else EPROTO)
    && (Waits(op, c) && c.request.pc == E.Done(false) ==>
          call.code == if c.request.error != 0 then c.request.error else EIO)
    && (!Implemented(op) ==> call.code == ENOSYS)
    && (Implemented(op) && TakesPath(op) && c.converted == -1 ==> call.code == EIO)
    && (Implemented(op) && (TakesPath(op) ==> c.converted != -1) && !Waits(op, c) ==>
          call.code == if c.sendError != 0 then c.sendError else EIO)
  }

  /**
   From the table to the caller: whatever the other threads and the server do, an operation on a request whose
   wait has returned makes exactly one callback. cb_success gets a reply that carries the id of this request and is
   of the expected kind, after WAITING, RESPONSE and FINISH; a finished reply of a foreign kind is always EPROTO.
   */
  lemma OperationOverAnyRun(steps: seq<E.Step>, r: E.Handle, op: Operation, c: Course, calls: seq<Callback>)
    requires var s := E.Run(E.START, steps);
             r in s.requests && s.requests[r].pc.Done? && c.request == s.requests[r]
    requires OneCallback(op, c, calls)
    ensures WellReturned(c)
    ensures calls[0].Success? ==>
              && calls[0].reply.id == c.request.id && Answers(op, calls[0].reply)
              && c.request.history == [E.Waiting, E.Response, E.Finish]
    ensures calls[0].Error? && Reply(op, c).Some? && Reply(op, c).value.kind != SSH_FXP_STATUS ==>
              calls[0].code == EPROTO
    ensures calls[0].Error? && Reply(op, c).Some? && Reply(op, c).value.kind == SSH_FXP_STATUS ==>
              var e := Reply(op, c).value.linuxError; calls[0].code == if e != 0 then e else EIO
  {
    var s := E.Run(E.START, steps);
    E.Reachable(steps);
    assert E.RequestOk(s.requests[r], r in s.table);
    if c.request.pc == E.Done(true) {
      E.ReturnsOne(steps, r);
    }
  }

  method Perform(op: Operation, c: Course) returns (calls: seq<Callback>)
    requires Waits(op, c) ==> WellReturned(c)
    ensures OneCallback(op, c, calls)
  {
    calls := [];
    if op == HandleLock || op == HandleUnlock {
      calls := calls + [Error(ENOSYS)];
      return;
    }
    var errcode := EIO;
    var hasPath := match op
      case PathGetattr(_) | PathOpen(_) | PathMkdir | PathRm(_) | PathSetattr | HandleFstatat => true
      case _ => false;
    if hasPath && c.converted == -1 {
      calls := calls + [Error(errcode)];
      return;
    }
    var result := -1;
    match op {
      case PathGetattr(what) =>
        if what == "getattr" || what == "statvfs" || what == "readlink" { result := c.sent; }
      case PathOpen(what) =>
        if what == "open" || what == "opendir" { result := c.sent; }
      case PathRm(what) =>
        if what == "unlink" || what == "rmdir" { result := c.sent; }
      case _ => result := c.sent;
    }
    var replyError := c.sendError;
    if result > 0 || (op == HandleFstatat && result == 0) {
      replyError := c.request.error;
      if c.request.pc.result {
        var reply := c.request.packet.value;
        if AnsweredByStatus(op) {
          if reply.kind == SSH_FXP_STATUS {
            if reply.code == 0 {
              calls := calls + [Success(reply)];
              return;
            }
            if reply.linuxError != 0 {
              calls := calls + [Error(reply.linuxError)];
              return;
            }
          } else {
            calls := calls + [Error(EPROTO)];
            return;
          }
        } else if reply.kind == ExpectedKind(op) {
          calls := calls + [Success(reply)];
          return;
        } else if reply.kind == SSH_FXP_STATUS {
          if reply.linuxError != 0 {
            calls := calls + [Error(reply.linuxError)];
            return;
          } else if op == HandleFgetattr || op == HandleFstatat {
            calls := calls + [Error(errcode)];
            return;
          }
        } else {
          errcode := if (op.PathGetattr? || op == HandleFgetattr) && replyError != 0 then replyError else EPROTO;
          calls := calls + [Error(errcode)];
          return;
        }
      }
    }
    if replyError != 0 { errcode := replyError; }
    calls := calls + [Error(errcode)];
  }
}
