// Fan-out tasks and their text form in the message queue (internal/dto/timeline_dto.go).
module FanoutTasks {
  import opened Decimals
  import opened Times

  const ACTION_CREATE := "create"
  const ACTION_DELETE := "delete"

  // A queue value of Go type any: a string, or something that is none.
  datatype Any = Text(text: string) | Other

  type Values = map<string, Any>

  datatype Task = Task(tweetID: int, authorID: int, createdAt: Time, action: string)

  function Encode(t: Task): Values {
    map[
      "tweet_id" := Text(Format(t.tweetID)),
      "author_id" := Text(Format(t.authorID)),
      "at" := Text(Format(t.createdAt.Unix())),
      "action" := Text(t.action)
    ]
  }

  predicate HasText(values: Values, key: string) {
    key in values && values[key].Text?
  }

  predicate HasFields(values: Values) {
    HasText(values, "tweet_id") && HasText(values, "author_id") && HasText(values, "at") && HasText(values, "action")
  }

  // The task a receiver holding `was` ends up with, and whether decoding succeeded. A refused id
  // is written to the receiver all the same.
  function Decode(was: Task, msgID: string, values: Values): (Task, bool) {
    if msgID == "" || !HasFields(values) then (was, false)
    else
      var t := Task(
        ParseInt64(values["tweet_id"].text),
        ParseInt64(values["author_id"].text),
        Time.FromUnix(ParseInt64(values["at"].text)),
        values["action"].text
      );
      (t, t.tweetID > 0 && t.authorID > 0)
  }

  class FanoutTask {
    var tweetID: int
    var authorID: int
    var createdAt: Time
    var action: string

    constructor (tweetID: int, authorID: int, createdAt: Time, action: string)
      ensures Data() == Task(tweetID, authorID, createdAt, action)
    {
      this.tweetID := tweetID;
      this.authorID := authorID;
      this.createdAt := createdAt;
      this.action := action;
    }

    function Data(): Task
      reads this
    {
      Task(tweetID, authorID, createdAt, action)
    }

    method ToMap() returns (values: Values)
      ensures values == Encode(Data())
      ensures values == map[
        "tweet_id" := Text(Format(tweetID)), "author_id" := Text(Format(authorID)),
        "at" := Text(Format(createdAt.sec)), "action" := Text(action)]
    {
      values := map[];
      values := values["tweet_id" := Text(Format(tweetID))];
      values := values["author_id" := Text(Format(authorID))];
      values := values["at" := Text(Format(createdAt.Unix()))];
      values := values["action" := Text(action)];
    }

    method FromMap(msgID: string, values: Values) returns (ok: bool)
      modifies this
      ensures (Data(), ok) == Decode(old(Data()), msgID, values)
      ensures ok ==> tweetID > 0 && authorID > 0
      ensures msgID == "" || (exists key | key in ["tweet_id", "author_id", "at", "action"] :: !HasText(values, key)) ==>
        !ok && Data() == old(Data())
      ensures msgID != "" && (forall key | key in ["tweet_id", "author_id", "at", "action"] :: HasText(values, key)) ==>
        && tweetID == ParseInt(values["tweet_id"].text).value && authorID == ParseInt(values["author_id"].text).value
        && createdAt == Time(ParseInt(values["at"].text).value, 0) && action == values["action"].text
        && ok == (tweetID > 0 && authorID > 0)
    {
      if msgID == "" || !HasFields(values) {
        return false;
      }
      tweetID := ParseInt64(values["tweet_id"].text);
      authorID := ParseInt64(values["author_id"].text);
      createdAt := Time.FromUnix(ParseInt64(values["at"].text));
      action := values["action"].text;
      return tweetID > 0 && authorID > 0;
    }
  }

  function CutToSecond(t: Task): Task {
    t.(createdAt := Time.FromUnix(t.createdAt.Unix()))
  }

  // Decoding gives back every encoded task with its time cut to the second, before and after
  // 1970 alike, and succeeds exactly for positive ids; the second, which is the timeline score,
  // does not change.
  lemma DecodeUndoesEncode(t: Task, was: Task, msgID: string)
    requires IsInt64(t.tweetID) && IsInt64(t.authorID) && IsInt64(t.createdAt.Unix())
    requires msgID != ""
    ensures Decode(was, msgID, Encode(t)) == (CutToSecond(t), t.tweetID > 0 && t.authorID > 0)
    ensures CutToSecond(t).createdAt.Unix() == t.createdAt.Unix()
  {
    ParseUndoesFormat(t.tweetID);
    ParseUndoesFormat(t.authorID);
    ParseUndoesFormat(t.createdAt.Unix());
    assert HasFields(Encode(t));
  }
}
