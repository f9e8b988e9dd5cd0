/** How put assembles a message in a buffer of fixed size, one formatted part after the other. */
module MessageFormat {
  import opened LogFiles

  /** The bytes counted so far, and the space as the macro last computed it. */
  datatype Line = Line(text: string, avail: nat)

  function Room(l: Line): nat {
    if l.avail > |l.text| then l.avail - |l.text| else 0
  }

  /** One part: whole if the room exceeds it, else cut short with its terminator counted. */
  function Added(l: Line, part: string): Line {
    var room := Room(l);
    Line(if room > |part| then l.text + part
         else if room > 0 then l.text + part[..room - 1] + "\0"
         else l.text,
         room)
  }

  /** The head (time, thread, level), the caller's text, and a tail that ends the line. */
  function Formatted(head: string, body: string, tail: string): string {
    Added(Added(Added(Line("", MSG_SIZE), head), body), tail).text
  }

  /** The macro around snprintf. Within a full-size buffer it writes nowhere else. */
  method Snprintf(msg: array<char>, availLen: nat, curLen: nat, part: string) returns (avail: nat, cur: nat)
    requires msg.Length == MSG_SIZE && availLen <= MSG_SIZE && curLen <= MSG_SIZE
    modifies msg
    ensures avail <= MSG_SIZE && cur <= MSG_SIZE
    ensures Line(msg[..cur], avail) == Added(Line(old(msg[..curLen]), availLen), part)
  {
    ghost var before := msg[..curLen];
    avail := if availLen > curLen then availLen - curLen else 0;
    if avail > 0 {
      var n := if |part| < avail then |part| else avail - 1;
      forall i | 0 <= i < n {
        msg[curLen + i] := part[i];
      }
      msg[curLen + n] := '\0';
      assert msg[..curLen + n] == before + part[..n];
      assert msg[..curLen + n + 1] == before + part[..n] + "\0";
    }
    cur := curLen + if avail > |part| then |part| else avail;
  }

  method Format(head: string, body: string, tail: string) returns (msg: array<char>, curLen: nat)
    ensures fresh(msg) && msg.Length == MSG_SIZE && curLen <= MSG_SIZE
    ensures msg[..curLen] == Formatted(head, body, tail)
  {
    msg := new char[MSG_SIZE];
    curLen := 0;
    var availLen := MSG_SIZE;
    assert msg[..0] == "";
    availLen, curLen := Snprintf(msg, availLen, curLen, head);
    availLen, curLen := Snprintf(msg, availLen, curLen, body);
    availLen, curLen := Snprintf(msg, availLen, curLen, tail);
  }

  /** What a part that does not fit leaves: the head and the text are cut to the buffer, and the tail
      to what the text and twice the head leave of it; a cut ends in a zero byte. */
  lemma CutWhere(head: string, body: string, tail: string)
    ensures Formatted(head, body, tail)
         == if |head| >= 4096 then head[..4095] + "\0"
            else if |head + body| >= 4096 then head + body[..4095 - |head|] + "\0"
            else
              var room := 4096 - |head| - |head + body|;
              if room <= 0 then head + body
              else if room <= |tail| then head + body + tail[..room - 1] + "\0"
              else head + body + tail
  {
    assert "" + head == head;
    assert |head| >= 4096 ==> "" + head[..4095] == head[..4095];
  }

  /** The head is charged twice: a message comes through whole exactly when its length and that
      of its head together stay below the buffer size. */
  lemma WholeUpToTwiceTheHead(head: string, body: string, tail: string)
    requires tail != "" && tail[|tail| - 1] == '\n'
    ensures Formatted(head, body, tail) == head + body + tail <==> |head| + |head + body + tail| < 4096
    ensures |Formatted(head, body, tail)| <= 4096
    ensures Stored(Formatted(head, body, tail)) == Formatted(head, body, tail)
  {
    var one := Added(Line("", MSG_SIZE), head);
    var two := Added(one, body);
    var three := Added(two, tail);
    var whole := head + body + tail;
    assert "" + head == head;
    if |head| + |whole| >= MSG_SIZE && |head + body| < MSG_SIZE && Room(two) > 0 {
      assert three.text[|three.text| - 1] == '\0';
      assert whole[|whole| - 1] == '\n';
    }
  }

  /** A message well below the buffer size that loses its end. */
  lemma ShortMessageIsCut()
    ensures exists head, body, tail ::
      && tail == "\n"
      && |head + body + tail| < 4096
      && Formatted(head, body, tail) == head + body
  {
    var head, body := seq(60, i => 'h'), seq(MSG_SIZE - 120, i => 'b');
    assert "" + head == head;
    assert Formatted(head, body, "\n") == head + body;
    assert |head + body + "\n"| < MSG_SIZE;
  }
}
