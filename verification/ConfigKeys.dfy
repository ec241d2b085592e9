/** The 17 keys of the configuration script, in the order in which the reader looks for them. */
module ConfigKeys {
  import opened Text

  datatype Key =
    | Port1 | Port2 | ServerIp1 | ServerIp2 | SocketCount | WorkCount1 | WorkCount2
    | ReceiveBuffer1 | ReceiveBuffer2 | SendBuffer1 | SendBuffer2
    | TransferWorkThread | DbReceiveBuffer | DbWorkThread | DbName | DbAccount | DbPwd

  const PORT1 := "_port1"
  const PORT2 := "_port2"
  const SERVER_IP1 := "_server_ip1"
  const SERVER_IP2 := "_server_ip2"
  const SOCKET_COUNT := "_prepare_accept_socket_count1"
  const WORK_COUNT1 := "_acceptor_work_count1"
  const WORK_COUNT2 := "_acceptor_work_count2"
  const RECEIVE_BUFFER1 := "_receive_buffer_size1"
  const RECEIVE_BUFFER2 := "_receive_buffer_size2"
  const SEND_BUFFER1 := "_send_buffer_size1"
  const SEND_BUFFER2 := "_send_buffer_size2"
  const DB_TRANSFER_WORK_THREAD := "_info_transfer_station_work_thread_count"
  const DB_RECEIVE_BUFFER := "_database_receive_buffer_size"
  const DB_WORK_THREAD := "_database_work_thread_count"
  const DB_NAME := "_database_name"
  const DB_ACCOUNT := "_database_account_name"
  const DB_PWD := "_database_account_pwd"

  function KeyText(k: Key): string {
    match k
    case Port1 => PORT1
    case Port2 => PORT2
    case ServerIp1 => SERVER_IP1
    case ServerIp2 => SERVER_IP2
    case SocketCount => SOCKET_COUNT
    case WorkCount1 => WORK_COUNT1
    case WorkCount2 => WORK_COUNT2
    case ReceiveBuffer1 => RECEIVE_BUFFER1
    case ReceiveBuffer2 => RECEIVE_BUFFER2
    case SendBuffer1 => SEND_BUFFER1
    case SendBuffer2 => SEND_BUFFER2
    case TransferWorkThread => DB_TRANSFER_WORK_THREAD
    case DbReceiveBuffer => DB_RECEIVE_BUFFER
    case DbWorkThread => DB_WORK_THREAD
    case DbName => DB_NAME
    case DbAccount => DB_ACCOUNT
    case DbPwd => DB_PWD
  }

  /** An underscore, then small letters and underscores, the last character possibly a numeral. */
  ghost predicate WellSpelt(text: string) {
    && text != "" && text[0] == '_'
    && forall i | 0 <= i < |text| ::
         'a' <= text[i] <= 'z' || text[i] == '_' || (i == |text| - 1 && Numeral(text[i]))
  }

  predicate Numeral(c: char) {
    c == '1' || c == '2'
  }

  lemma ShortKeysWellSpelt(k: Key)
    requires |KeyText(k)| <= 18
    ensures WellSpelt(KeyText(k))
  {
  }

  lemma MiddleKeysWellSpelt(k: Key)
    requires 18 < |KeyText(k)| <= 21
    ensures WellSpelt(KeyText(k))
  {
  }

  lemma LongKeysWellSpelt(k: Key)
    requires 21 < |KeyText(k)| <= 28
    ensures WellSpelt(KeyText(k))
  {
  }

  lemma SocketCountWellSpelt()
    ensures WellSpelt(SOCKET_COUNT)
  {
  }

  lemma TransferWorkThreadWellSpelt()
    ensures WellSpelt(DB_TRANSFER_WORK_THREAD)
  {
  }

  lemma KeysWellSpelt(k: Key)
    ensures WellSpelt(KeyText(k))
  {
    if |KeyText(k)| <= 18 {
      ShortKeysWellSpelt(k);
    } else if |KeyText(k)| <= 21 {
      MiddleKeysWellSpelt(k);
    } else if |KeyText(k)| <= 28 {
      LongKeysWellSpelt(k);
    } else {
      SocketCountWellSpelt();
      TransferWorkThreadWellSpelt();
    }
  }

  /** Keys pass the filter unchanged and contain no ':'. */
  lemma KeysKept(k: Key)
    ensures AllKept(KeyText(k)) && ':' !in KeyText(k) && KeyText(k) != "" && KeyText(k)[0] == '_'
  {
    KeysWellSpelt(k);
  }

  // ---------- No key is found inside another ----------

  /** The word differs from every place in the text where it fits, at `p` or at `q`. */
  ghost predicate DiffersAt(text: string, word: string, i: nat, p: nat, q: nat)
    requires p < |word| && q < |word| && i + |word| <= |text|
  {
    text[i + p] != word[p] || text[i + q] != word[q]
  }

  lemma Apart(text: string, word: string, p: nat, q: nat)
    requires p < |word| && q < |word|
    requires forall i: nat | i + |word| <= |text| :: DiffersAt(text, word, i, p, q)
    ensures !Occurs(text, word)
  {
    if Occurs(text, word) {
      var i: nat :| OccursAt(text, word, i);
      assert DiffersAt(text, word, i, p, q);
      MatchAt(text, word, i, p);
      MatchAt(text, word, i, q);
    }
  }

  /** A word that ends with a numeral occurs in a key only at its end. */
  lemma NumberedApart(text: string, word: string, p: nat)
    requires WellSpelt(text) && p < |word| && Numeral(word[|word| - 1])
    requires |word| <= |text| ==> DiffersAt(text, word, |text| - |word|, p, |word| - 1)
    ensures !Occurs(text, word)
  {
    if Occurs(text, word) {
      var i: nat :| OccursAt(text, word, i);
      MatchAt(text, word, i, p);
      MatchAt(text, word, i, |word| - 1);
    }
  }

  predicate NumberedKey(k: Key) {
    Numeral(KeyText(k)[|KeyText(k)| - 1])
  }

  /** Where a key that ends with a numeral, or that numeral, differs from the end of any other key. */
  function Place(word: Key): (p: nat)
    ensures p < |KeyText(word)|
  {
    match word
    case WorkCount1 => 7
    case Port1 => 1
    case Port2 => 1
    case WorkCount2 => 1
    case ReceiveBuffer1 => 1
    case ReceiveBuffer2 => 1
    case _ => 0
  }

  lemma EndsDifferShort(k: Key, word: Key)
    requires k != word && NumberedKey(word) && |KeyText(word)| <= |KeyText(k)| <= 21
    ensures DiffersAt(KeyText(k), KeyText(word), |KeyText(k)| - |KeyText(word)|, Place(word), |KeyText(word)| - 1)
  {
  }

  lemma EndsDifferLong(k: Key, word: Key)
    requires k != word && NumberedKey(word) && |KeyText(word)| <= |KeyText(k)| && |KeyText(k)| > 26
    ensures DiffersAt(KeyText(k), KeyText(word), |KeyText(k)| - |KeyText(word)|, Place(word), |KeyText(word)| - 1)
  {
  }

  lemma EndsDiffer(k: Key, word: Key)
    requires k != word && NumberedKey(word) && |KeyText(word)| <= |KeyText(k)|
    ensures DiffersAt(KeyText(k), KeyText(word), |KeyText(k)| - |KeyText(word)|, Place(word), |KeyText(word)| - 1)
  {
    if |KeyText(k)| <= 21 {
      EndsDifferShort(k, word);
    } else if |KeyText(k)| > 26 {
      EndsDifferLong(k, word);
    }
  }

  lemma NumberedKeyApart(k: Key, word: Key)
    requires k != word && NumberedKey(word)
    ensures !Occurs(KeyText(k), KeyText(word))
  {
    KeysWellSpelt(k);
    if |KeyText(word)| <= |KeyText(k)| {
      EndsDiffer(k, word);
    }
    NumberedApart(KeyText(k), KeyText(word), Place(word));
  }

  lemma TransferWorkThreadApart(k: Key)
    requires k != TransferWorkThread
    ensures !Occurs(KeyText(k), KeyText(TransferWorkThread))
  {
    Apart(KeyText(k), KeyText(TransferWorkThread), 0, 0);
  }

  lemma DbReceiveBufferApart(k: Key)
    requires k != DbReceiveBuffer
    ensures !Occurs(KeyText(k), KeyText(DbReceiveBuffer))
  {
    Apart(KeyText(k), KeyText(DbReceiveBuffer), 1, 1);
  }

  lemma DbWorkThreadApart(k: Key)
    requires k != DbWorkThread
    ensures !Occurs(KeyText(k), KeyText(DbWorkThread))
  {
    Apart(KeyText(k), KeyText(DbWorkThread), 0, 10);
  }

  lemma DbNameApartFromShort(k: Key)
    requires k != DbName && |KeyText(k)| <= 21
    ensures !Occurs(KeyText(k), KeyText(DbName))
  {
    Apart(KeyText(k), KeyText(DbName), 12, 0);
  }

  lemma DbNameApart(k: Key)
    requires k != DbName
    ensures !Occurs(KeyText(k), KeyText(DbName))
  {
    if |KeyText(k)| <= 21 {
      DbNameApartFromShort(k);
    } else {
      Apart(KeyText(k), KeyText(DbName), 12, 0);
    }
  }

  lemma DbAccountApart(k: Key)
    requires k != DbAccount
    ensures !Occurs(KeyText(k), KeyText(DbAccount))
  {
    Apart(KeyText(k), KeyText(DbAccount), 20, 20);
  }

  lemma DbPwdApart(k: Key)
    requires k != DbPwd
    ensures !Occurs(KeyText(k), KeyText(DbPwd))
  {
    Apart(KeyText(k), KeyText(DbPwd), 18, 18);
  }

  /** A key occurs in the text of a key only if it is that key. */
  lemma KeyInKey(text: Key, word: Key)
    ensures Occurs(KeyText(text), KeyText(word)) <==> text == word
  {
    if text == word {
      assert OccursAt(KeyText(text), KeyText(text), 0);
    } else {
      match word
      case TransferWorkThread => TransferWorkThreadApart(text);
      case DbReceiveBuffer => DbReceiveBufferApart(text);
      case DbWorkThread => DbWorkThreadApart(text);
      case DbName => DbNameApart(text);
      case DbAccount => DbAccountApart(text);
      case DbPwd => DbPwdApart(text);
      case _ => NumberedKeyApart(text, word);
    }
  }
}
