/** The component state of `App` and the handlers that change it: loading and adding
    records through the contract, the transaction-status banner, the signature-gated
    decrypt toggle of the detail view, and the canned-reply chat. The wallet, the
    contract's transport, timers and randomness are supplied as outcomes by the caller. */
module App {
  import opened Wrappers
  import opened Text
  import opened Numbers
  import opened Base64
  import opened Codec
  import opened Records

  // ---------------------------------------------------------------- persistence

  /** The contract key under which the whole record list is stored. */
  const DataKey: string := "fitnessData"

  /** The deployed key/value contract, as the client sees it. */
  class Ledger {
    var store: map<string, seq<Byte>>
    var available: bool

    constructor (store: map<string, seq<Byte>>, available: bool)
      ensures this.store == store && this.available == available
    {
      this.store := store;
      this.available := available;
    }

    /** `getData(key)`: a key that was never written reads as no bytes. */
    function GetData(key: string): (b: seq<Byte>)
      reads this`store
      ensures key in store ==> b == store[key]
      ensures key !in store ==> b == []
    {
      if key in store then store[key] else []
    }

    /** `setData(key, bytes)`: replaces the whole value under `key`. */
    method SetData(key: string, bytes: seq<Byte>)
      modifies this`store
      ensures store == old(store)[key := bytes]
    {
      store := store[key := bytes];
    }
  }

  /** The library conversions around the stored bytes: `ethers.toUtf8String` (`None`
      where it throws), `ethers.toUtf8Bytes`, `JSON.stringify` and `JSON.parse` (`None`
      where it throws). */
  datatype Serializer = Serializer(
    toUtf8String: seq<Byte> -> Option<string>,
    toUtf8Bytes: string -> seq<Byte>,
    stringify: seq<FitnessData> -> string,
    parse: string -> Option<seq<FitnessData>>)

  /** The laws of those conversions that "save, then load" relies on: UTF-8 and JSON
      round-trip, no text but the empty one encodes to no bytes, and a JSON array is
      never blank. */
  ghost predicate Lawful(ser: Serializer) {
    && (forall s :: ser.toUtf8String(ser.toUtf8Bytes(s)) == Some(s))
    && (forall s :: ser.toUtf8Bytes(s) == [] ==> s == [])
    && (forall l :: ser.parse(ser.stringify(l)) == Some(l))
    && (forall l :: !IsBlank(ser.stringify(l)))
  }

  /** The bytes `addFitnessData` writes for a list. */
  function Encoded(ser: Serializer, data: seq<FitnessData>): seq<Byte> {
    ser.toUtf8Bytes(ser.stringify(data))
  }

  /** The list `loadData` makes of the bytes it reads: empty bytes, undecodable bytes,
      blank text and unparsable text all give the empty list. The test for blank text is
      the client's `trim() === ""`, which `TrimEmptyIffBlank` shows to be `IsBlank`. */
  function LoadedList(ser: Serializer, bytes: seq<Byte>): seq<FitnessData> {
    if |bytes| == 0 then []
    else
      match ser.toUtf8String(bytes)
      case None => []
      case Some(text) => if IsBlank(text) then [] else ser.parse(text).GetOr([])
  }

  /** The fallbacks of `loadData`, and the parsed list otherwise. */
  lemma LoadedListCases(ser: Serializer, bytes: seq<Byte>)
    ensures |bytes| == 0 ==> LoadedList(ser, bytes) == []
    ensures ser.toUtf8String(bytes).None? ==> LoadedList(ser, bytes) == []
    ensures ser.toUtf8String(bytes).Some? && Trim(ser.toUtf8String(bytes).value) == "" ==> LoadedList(ser, bytes) == []
    ensures |bytes| > 0 && ser.toUtf8String(bytes).Some? && Trim(ser.toUtf8String(bytes).value) != "" ==>
      LoadedList(ser, bytes) == ser.parse(ser.toUtf8String(bytes).value).GetOr([])
  {
    if ser.toUtf8String(bytes).Some? {
      TrimEmptyIffBlank(ser.toUtf8String(bytes).value);
    }
  }

  /** Loading what was saved gives back the saved list. */
  lemma LoadEncoded(ser: Serializer, data: seq<FitnessData>)
    requires Lawful(ser)
    ensures LoadedList(ser, Encoded(ser, data)) == data
  {
    var text := ser.stringify(data);
    assert !IsBlank(text);
    assert text != [];
  }

  // ---------------------------------------------------------------- status banner

  datatype Status = Pending | Success | Error

  /** `transactionStatus`. */
  datatype TransactionStatus = TransactionStatus(visible: bool, status: Status, message: string)

  const Hidden := TransactionStatus(false, Pending, "")
  const ConnectFirst := TransactionStatus(true, Error, "Please connect wallet first")
  const LoadFailed := TransactionStatus(true, Error, "Failed to load data")
  const AvailableNotice := TransactionStatus(true, Success, "Contract is available!")
  const Adding := TransactionStatus(true, Pending, "Adding fitness data with Zama FHE...")
  const Added := TransactionStatus(true, Success, "Fitness data added successfully!")
  const RejectedText: string := "Transaction rejected by user"

  /** The error text `addFitnessData` shows for an exception with message `m`. */
  function SubmissionMessage(m: string): string {
    if Contains(m, "user rejected transaction") then RejectedText
    else "Submission failed: " + (if m == "" then "Unknown error" else m)
  }

  /** A rejection by the user is told apart from every other failure. */
  lemma SubmissionMessageDistinguishesRejection(m: string)
    ensures SubmissionMessage(m) == RejectedText <==> Contains(m, "user rejected transaction")
    ensures !Contains(m, "user rejected transaction") ==> HasPrefix(SubmissionMessage(m), "Submission failed: ")
  {
    if !Contains(m, "user rejected transaction") {
      var r := SubmissionMessage(m);
      assert r[0] == 'S';
      assert RejectedText[0] == 'T';
      assert r[..19] == "Submission failed: ";
    }
  }

  /** What a read of the contract by `loadData` runs into. */
  datatype ReadOutcome =
    | NoContract          // `getContractReadOnly` gave no contract
    | AvailabilityFails   // `isAvailable` threw
    | DataFails           // `getData` threw
    | ReadOk

  /** The statuses `loadData` sets, in order, for a contract whose availability flag is
      `available`. As written, the "available" notice is shown when the contract reports
      that it is NOT available. */
  function LoadStatuses(outcome: ReadOutcome, available: bool): seq<TransactionStatus> {
    match outcome
    case NoContract => []
    case AvailabilityFails => [LoadFailed]
    case DataFails => (if available then [] else [AvailableNotice]) + [LoadFailed]
    case ReadOk => if available then [] else [AvailableNotice]
  }

  /** What writing the list through the signer runs into. */
  datatype WriteOutcome =
    | NoSigner                    // `getContractWithSigner` gave no contract
    | WriteFails(message: string) // `setData` threw with this message
    | WriteCommits

  /** The message of the exception a failed write raises. */
  function FailureText(w: WriteOutcome): string
    requires !w.WriteCommits?
  {
    match w
    case NoSigner => "Failed to get contract with signer"
    case WriteFails(m) => m
  }

  /** Whether the wallet signs the challenge. */
  datatype SignOutcome = Signed | SignFails

  /** What one awaited lookup of `initSignatureParams` gives: nothing to look up (no
      contract, no wallet), a value, or a rejection, which ends the function there. */
  datatype Lookup<T> = Absent | Found(value: T) | Rejects

  // ---------------------------------------------------------------- decrypting

  /** A token's value as `decryptWithSignature` returns it once signed: the decoded
      number, or `null` when `atob` throws. */
  function Reveal(token: string): Option<Num> {
    match DecryptNumber(token)
    case Value(v) => Some(v)
    case InvalidCharacter => None
  }

  /** The result of `decryptWithSignature`: `null` without a connected wallet or a
      signature. */
  function DecryptResult(connected: bool, sign: SignOutcome, token: string): Option<Num> {
    if !connected || sign == SignFails then None else Reveal(token)
  }

  /** Signed, a token made by the codec reveals its number. */
  lemma DecryptResultOfToken(n: nat)
    ensures DecryptResult(true, Signed, EncryptNumber(n)) == Some(Finite(n))
  {
    DecryptEncrypt(n);
  }

  /** Signed, a prefixed payload with a character foreign to Base64 reveals `null`. */
  lemma DecryptResultOfForeign(payload: string, i: nat)
    requires i < |payload|
    requires !IsAlphabetChar(payload[i]) && !IsAsciiWhitespace(payload[i]) && payload[i] != '='
    ensures DecryptResult(true, Signed, Prefix + payload) == None
  {
    DecryptRejectsForeign(payload, i);
  }

  /** Without a connection or a signature the result is `null`, whatever the token. */
  lemma DecryptResultUnsigned(token: string)
    ensures DecryptResult(false, Signed, token) == None && DecryptResult(true, SignFails, token) == None
  {
  }

  /** The five labelled lines of the challenge. */
  function ChallengeLineList(publicKey: string, contractAddress: string, chainId: nat, startTimestamp: nat, durationDays: nat): seq<string> {
    [ "publickey:" + publicKey,
      "contractAddresses:" + contractAddress,
      "contractsChainId:" + DecimalString(chainId),
      "startTimestamp:" + DecimalString(startTimestamp),
      "durationDays:" + DecimalString(durationDays) ]
  }

  /** The challenge text the wallet signs (`message` in `decryptWithSignature`): the
      labelled lines, separated by line feeds. */
  function ChallengeMessage(publicKey: string, contractAddress: string, chainId: nat, startTimestamp: nat, durationDays: nat): string {
    Join(ChallengeLineList(publicKey, contractAddress, chainId, startTimestamp, durationDays), '\n')
  }

  /** Splitting the challenge at line feeds gives back its five labelled lines, so the
      text determines every field it carries. */
  lemma ChallengeLines(publicKey: string, contractAddress: string, chainId: nat, startTimestamp: nat, durationDays: nat)
    requires '\n' !in publicKey && '\n' !in contractAddress
    ensures Split(ChallengeMessage(publicKey, contractAddress, chainId, startTimestamp, durationDays), '\n')
         == ChallengeLineList(publicKey, contractAddress, chainId, startTimestamp, durationDays)
  {
    var lines := ChallengeLineList(publicKey, contractAddress, chainId, startTimestamp, durationDays);
    NoSeparatorInConcat("publickey:", publicKey, '\n');
    NoSeparatorInConcat("contractAddresses:", contractAddress, '\n');
    NoSeparatorInConcat("contractsChainId:", DecimalString(chainId), '\n');
    NoSeparatorInConcat("startTimestamp:", DecimalString(startTimestamp), '\n');
    NoSeparatorInConcat("durationDays:", DecimalString(durationDays), '\n');
    SplitJoin(lines, '\n');
  }

  /** The lower-case hexadecimal digit of a value below 16. */
  function HexDigit(d: nat): (c: char)
    requires d < 16
    ensures c != '\n'
  {
    if d < 10 then ('0' as int + d) as char else ('a' as int + (d - 10)) as char
  }

  /** `generatePublicKey`, given the 2000 random digit values it draws. */
  function GeneratePublicKey(nibbles: seq<nat>): (key: string)
    requires |nibbles| == 2000 && forall i :: 0 <= i < |nibbles| ==> nibbles[i] < 16
    ensures |key| == 2002 && key[..2] == "0x" && '\n' !in key
    ensures forall i :: 0 <= i < 2000 ==> key[i + 2] == HexDigit(nibbles[i])
  {
    var digits := seq(2000, i requires 0 <= i < 2000 => HexDigit(nibbles[i]));
    var key := "0x" + digits;
    assert forall j :: 0 <= j < |key| ==> key[j] == if j < 2 then "0x"[j] else digits[j - 2];
    key
  }

  // ---------------------------------------------------------------- chat

  datatype Role = User | Ai

  /** `AIChatMessage`. */
  datatype ChatMessage = ChatMessage(role: Role, content: string, timestamp: int)

  /** The canned replies of the "AI coach". */
  const Responses: seq<string> := [
    "Based on your encrypted fitness data, I recommend increasing your cardio sessions.",
    "Your encrypted workout patterns show good consistency. Keep it up!",
    "I've analyzed your FHE-protected data and suggest adding strength training.",
    "Your encrypted metrics indicate progress. Consider adjusting your diet.",
    "FHE analysis shows room for improvement in workout duration."
  ]

  /** A transcript entry the handlers can produce: a user message that is not blank, or
      one of the canned replies. */
  predicate WellFormedMessage(m: ChatMessage) {
    match m.role
    case User => !IsBlank(m.content)
    case Ai => m.content in Responses
  }

  /** Every message of a transcript is well formed. */
  predicate AllWellFormed(msgs: seq<ChatMessage>) {
    msgs == [] || (AllWellFormed(msgs[..|msgs| - 1]) && WellFormedMessage(msgs[|msgs| - 1]))
  }

  /** Appending a well-formed message keeps a well-formed transcript well formed. */
  lemma AppendWellFormed(msgs: seq<ChatMessage>, m: ChatMessage)
    requires AllWellFormed(msgs) && WellFormedMessage(m)
    ensures AllWellFormed(msgs + [m])
  {
    assert (msgs + [m])[..|msgs|] == msgs;
  }

  // ---------------------------------------------------------------- component state

  /** The state of the `App` component. */
  class AppState {
    const ledger: Ledger

    // the wallet account (`useAccount`)
    var isConnected: bool
    var address: Option<string>

    var loading: bool
    var fitnessData: seq<FitnessData>
    var isRefreshing: bool
    var showAddModal: bool
    var addingData: bool
    var transactionStatus: TransactionStatus
    var newData: NewData
    var selectedData: Option<FitnessData>
    var decryptedValue: Option<Num>
    var isDecrypting: bool
    var publicKey: string
    var contractAddress: string
    var chainId: nat
    var startTimestamp: nat
    var durationDays: nat
    var aiMessages: seq<ChatMessage>
    var userMessage: string
    var isAiResponding: bool

    /** Every status the handlers have set, the initial one first. */
    ghost var statusLog: seq<TransactionStatus>
    /** Every message handed to the wallet for signing, in order. */
    ghost var signatureRequests: seq<string>

    /** The banner shows the status set last, and the transcript holds only messages the
        chat handlers produce. */
    ghost predicate Valid()
      reads this`statusLog, this`transactionStatus, this`aiMessages, this`publicKey, this`contractAddress
    {
      StatusShown() && AllWellFormed(aiMessages) && SignableParams()
    }

    /** No line feed inside the key or the address, so each stays on its own line of the
        challenge. */
    predicate SignableParams()
      reads this`publicKey, this`contractAddress
    {
      '\n' !in publicKey && '\n' !in contractAddress
    }

    /** The banner shows the status set last. */
    ghost predicate StatusShown()
      reads this`statusLog, this`transactionStatus
    {
      |statusLog| > 0 && transactionStatus == statusLog[|statusLog| - 1]
    }

    /** The challenge built from the current signature parameters. */
    function Challenge(): string
      reads this`publicKey, this`contractAddress, this`chainId, this`startTimestamp, this`durationDays
    {
      ChallengeMessage(publicKey, contractAddress, chainId, startTimestamp, durationDays)
    }

    /** The initial state (`useState` defaults) for a wallet account. */
    constructor (ledger: Ledger, isConnected: bool, address: Option<string>)
      ensures Valid()
      ensures this.ledger == ledger && this.isConnected == isConnected && this.address == address
      ensures loading && fitnessData == [] && !isRefreshing && !showAddModal && !addingData
      ensures transactionStatus == Hidden && statusLog == [Hidden]
      ensures newData == NewData("", "", 0, 0) && selectedData == None && decryptedValue == None
      ensures !isDecrypting && publicKey == "" && contractAddress == "" && chainId == 0
      ensures startTimestamp == 0 && durationDays == 30
      ensures aiMessages == [] && userMessage == "" && !isAiResponding
      ensures signatureRequests == []
    {
      this.ledger := ledger;
      this.isConnected := isConnected;
      this.address := address;
      loading := true;
      fitnessData := [];
      isRefreshing := false;
      showAddModal := false;
      addingData := false;
      transactionStatus := Hidden;
      newData := NewData("", "", 0, 0);
      selectedData := None;
      decryptedValue := None;
      isDecrypting := false;
      publicKey := "";
      contractAddress := "";
      chainId := 0;
      startTimestamp := 0;
      durationDays := 30;
      aiMessages := [];
      userMessage := "";
      isAiResponding := false;
      statusLog := [Hidden];
      signatureRequests := [];
    }

    /** `setTransactionStatus`. */
    method SetStatus(s: TransactionStatus)
      requires Valid()
      modifies this`transactionStatus, this`statusLog
      ensures Valid()
      ensures statusLog == old(statusLog) + [s]
    {
      transactionStatus := s;
      statusLog := statusLog + [s];
    }

    /** The wallet account changed. */
    method SetAccount(connected: bool, addr: Option<string>)
      modifies this`isConnected, this`address
      ensures isConnected == connected && address == addr
    {
      isConnected := connected;
      address := addr;
    }

    /** `initSignatureParams`: `addr` is the lookup of the contract's address (a
        hexadecimal address, so without line feeds), `chain` that of the wallet's chain
        id, `nowMs` the clock and `nibbles` the draws of `generatePublicKey`. The function
        has no `try`: a rejected lookup ends it and leaves the later fields as they were. */
    method InitSignatureParams(addr: Lookup<string>, chain: Lookup<nat>, nowMs: nat, nibbles: seq<nat>)
      requires Valid()
      requires addr.Found? ==> '\n' !in addr.value
      requires |nibbles| == 2000 && forall i :: 0 <= i < |nibbles| ==> nibbles[i] < 16
      modifies this`contractAddress, this`chainId, this`startTimestamp, this`durationDays, this`publicKey
      ensures Valid()
      ensures contractAddress == (if addr.Found? then addr.value else old(contractAddress))
      ensures chainId == (if !addr.Rejects? && chain.Found? then chain.value else old(chainId))
      ensures !addr.Rejects? && !chain.Rejects? ==>
        startTimestamp == nowMs / 1000 && durationDays == 30 && publicKey == GeneratePublicKey(nibbles)
      ensures addr.Rejects? || chain.Rejects? ==>
        startTimestamp == old(startTimestamp) && durationDays == old(durationDays) && publicKey == old(publicKey)
    {
      if addr.Rejects? {
        return;
      }
      if addr.Found? {
        contractAddress := addr.value;
      }
      if chain.Rejects? {
        return;
      }
      if chain.Found? {
        chainId := chain.value;
      }
      startTimestamp := nowMs / 1000;
      durationDays := 30;
      publicKey := GeneratePublicKey(nibbles);
    }

    /** A timer's auto-clear of the banner. */
    method ClearStatus()
      requires Valid()
      modifies this`transactionStatus, this`statusLog
      ensures Valid() && statusLog == old(statusLog) + [Hidden]
    {
      SetStatus(Hidden);
    }

    /** `loadData`: replaces the list wholesale by what the contract holds, or leaves it
        as it was when the read fails. */
    method LoadData(ser: Serializer, outcome: ReadOutcome)
      requires Valid()
      modifies this`isRefreshing, this`loading, this`fitnessData, this`transactionStatus, this`statusLog
      ensures Valid() && !isRefreshing && !loading
      ensures statusLog == old(statusLog) + LoadStatuses(outcome, ledger.available)
      ensures fitnessData == if outcome == ReadOk then LoadedList(ser, ledger.GetData(DataKey)) else old(fitnessData)
    {
      isRefreshing := true;
      match outcome {
        case NoContract =>
        case AvailabilityFails =>
          SetStatus(LoadFailed);
        case DataFails =>
          if !ledger.available {
            SetStatus(AvailableNotice);
          }
          SetStatus(LoadFailed);
        case ReadOk =>
          if !ledger.available {
            SetStatus(AvailableNotice);
          }
          fitnessData := LoadedList(ser, ledger.GetData(DataKey));
      }
      isRefreshing := false;
      loading := false;
    }

    /** The add form's fields changed. */
    method SetNewData(d: NewData)
      modifies this`newData
      ensures newData == d
    {
      newData := d;
    }

    /** `addFitnessData`: with a connected account, appends the entry for `newData` to
        the list, writes the whole list to the contract and reloads it. */
    method AddFitnessData(ser: Serializer, write: WriteOutcome, reload: ReadOutcome)
      requires Valid()
      modifies this`addingData, this`isRefreshing, this`loading, this`fitnessData, this`transactionStatus,
               this`statusLog, ledger`store
      ensures Valid()
      ensures !(old(isConnected) && old(address).Some?) ==>
        && statusLog == old(statusLog) + [ConnectFirst]
        && fitnessData == old(fitnessData) && ledger.store == old(ledger.store)
        && addingData == old(addingData)
        && isRefreshing == old(isRefreshing) && loading == old(loading)
      ensures old(isConnected) && old(address).Some? ==> !addingData
      ensures old(isConnected) && old(address).Some? && !write.WriteCommits? ==>
        && statusLog == old(statusLog) + [Adding, TransactionStatus(true, Error, SubmissionMessage(FailureText(write)))]
        && fitnessData == old(fitnessData) && ledger.store == old(ledger.store)
        && isRefreshing == old(isRefreshing) && loading == old(loading)
      ensures old(isConnected) && old(address).Some? && write.WriteCommits? ==>
        && !isRefreshing && !loading
        && ledger.store == old(ledger.store)[DataKey := Encoded(ser, Appended(old(fitnessData), newData))]
        && statusLog == old(statusLog) + [Adding, Added] + LoadStatuses(reload, ledger.available)
        && fitnessData == if reload == ReadOk then LoadedList(ser, Encoded(ser, Appended(old(fitnessData), newData)))
                          else old(fitnessData)
    {
      if !isConnected || address.None? {
        SetStatus(ConnectFirst);
        return;
      }
      SubmitAdd(ser, write, reload);
    }

    /** `addFitnessData` past its connection check: the write either fails, with the
        failure reported, or commits and the list is reloaded. */
    method SubmitAdd(ser: Serializer, write: WriteOutcome, reload: ReadOutcome)
      requires Valid()
      modifies this`addingData, this`isRefreshing, this`loading, this`fitnessData, this`transactionStatus,
               this`statusLog, ledger`store
      ensures Valid() && !addingData
      ensures !write.WriteCommits? ==>
        && statusLog == old(statusLog) + [Adding, TransactionStatus(true, Error, SubmissionMessage(FailureText(write)))]
        && fitnessData == old(fitnessData) && ledger.store == old(ledger.store)
        && isRefreshing == old(isRefreshing) && loading == old(loading)
      ensures write.WriteCommits? ==>
        && !isRefreshing && !loading
        && ledger.store == old(ledger.store)[DataKey := Encoded(ser, Appended(old(fitnessData), newData))]
        && statusLog == old(statusLog) + [Adding, Added] + LoadStatuses(reload, ledger.available)
        && fitnessData == if reload == ReadOk then LoadedList(ser, Encoded(ser, Appended(old(fitnessData), newData)))
                          else old(fitnessData)
    {
      addingData := true;
      if write.NoSigner? || write.WriteFails? {
        ReportSubmitFailure(write);
      } else {
        CommitAdd(ser, reload);
      }
      addingData := false;
    }

    /** The branch of `addFitnessData` where the write fails: the pending banner is
        followed by the failure. */
    method ReportSubmitFailure(write: WriteOutcome)
      requires Valid() && !write.WriteCommits?
      modifies this`transactionStatus, this`statusLog
      ensures Valid()
      ensures statusLog == old(statusLog) + [Adding, TransactionStatus(true, Error, SubmissionMessage(FailureText(write)))]
    {
      ghost var log := statusLog;
      SetStatus(Adding);
      var failed := TransactionStatus(true, Error, SubmissionMessage(FailureText(write)));
      SetStatus(failed);
      assert statusLog == log + [Adding] + [failed] == log + [Adding, failed];
    }

    /** The branch of `addFitnessData` where `setData` commits: the list with the new
        entry is written, success is reported and the list is reloaded. */
    method CommitAdd(ser: Serializer, reload: ReadOutcome)
      requires Valid()
      modifies this`isRefreshing, this`loading, this`fitnessData, this`transactionStatus, this`statusLog,
               ledger`store
      ensures Valid() && !isRefreshing && !loading
      ensures ledger.store == old(ledger.store)[DataKey := Encoded(ser, Appended(old(fitnessData), newData))]
      ensures statusLog == old(statusLog) + [Adding, Added] + LoadStatuses(reload, ledger.available)
      ensures fitnessData == if reload == ReadOk then LoadedList(ser, Encoded(ser, Appended(old(fitnessData), newData)))
                             else old(fitnessData)
    {
      ghost var log := statusLog;
      SetStatus(Adding);
      var updated := Appended(fitnessData, newData);
      ledger.SetData(DataKey, Encoded(ser, updated));
      SetStatus(Added);
      LoadData(ser, reload);
      assert statusLog == log + [Adding] + [Added] + LoadStatuses(reload, ledger.available);
    }

    /** The success timer of `addFitnessData`: hides the banner, closes the form and
        clears it. */
    method FinishAdd()
      requires Valid()
      modifies this`transactionStatus, this`statusLog, this`showAddModal, this`newData
      ensures Valid() && statusLog == old(statusLog) + [Hidden]
      ensures !showAddModal && newData == NewData("", "", 0, 0)
    {
      SetStatus(Hidden);
      showAddModal := false;
      newData := NewData("", "", 0, 0);
    }

    /** `decryptWithSignature`: with a connected account, asks the wallet to sign the
        challenge and, once signed, decodes the token. */
    method DecryptWithSignature(token: string, sign: SignOutcome) returns (r: Option<Num>)
      requires Valid()
      modifies this`isDecrypting, this`transactionStatus, this`statusLog, this`signatureRequests
      ensures Valid()
      ensures r == DecryptResult(old(isConnected), sign, token)
      ensures !old(isConnected) ==>
        statusLog == old(statusLog) + [ConnectFirst] && signatureRequests == old(signatureRequests)
        && isDecrypting == old(isDecrypting)
      ensures old(isConnected) ==>
        statusLog == old(statusLog) && signatureRequests == old(signatureRequests) + [Challenge()]
        && !isDecrypting
      ensures old(isConnected) ==>
        Split(Challenge(), '\n') == ChallengeLineList(publicKey, contractAddress, chainId, startTimestamp, durationDays)
    {
      if !isConnected {
        SetStatus(ConnectFirst);
        return None;
      }
      isDecrypting := true;
      signatureRequests := signatureRequests + [Challenge()];
      ChallengeLines(publicKey, contractAddress, chainId, startTimestamp, durationDays);
      if sign == SignFails {
        r := None;
      } else {
        r := Reveal(token);
      }
      isDecrypting := false;
    }

    /** Clicking a record card opens its detail view. */
    method SelectData(item: FitnessData)
      modifies this`selectedData
      ensures selectedData == Some(item)
    {
      selectedData := Some(item);
    }

    /** The decrypt button of the detail view: hides a shown value without asking for a
        signature, or else shows what `decryptWithSignature` returns. */
    method ToggleDecrypt(sign: SignOutcome)
      requires Valid() && selectedData.Some?
      modifies this`decryptedValue, this`isDecrypting, this`transactionStatus, this`statusLog, this`signatureRequests
      ensures Valid()
      ensures old(decryptedValue).Some? ==>
        && decryptedValue == None
        && signatureRequests == old(signatureRequests) && statusLog == old(statusLog)
        && isDecrypting == old(isDecrypting)
      ensures old(decryptedValue).None? ==>
        && decryptedValue == DecryptResult(isConnected, sign, selectedData.value.encrypted)
        && signatureRequests == old(signatureRequests) + (if isConnected then [Challenge()] else [])
        && statusLog == old(statusLog) + (if isConnected then [] else [ConnectFirst])
        && isDecrypting == (if isConnected then false else old(isDecrypting))
    {
      if decryptedValue.Some? {
        decryptedValue := None;
        return;
      }
      var decrypted := DecryptWithSignature(selectedData.value.encrypted, sign);
      decryptedValue := decrypted;
    }

    /** Either close button of the detail view. */
    method CloseDetail()
      modifies this`selectedData, this`decryptedValue
      ensures selectedData == None && decryptedValue == None
    {
      selectedData := None;
      decryptedValue := None;
    }

    /** The chat input changed. */
    method SetUserMessage(text: string)
      modifies this`userMessage
      ensures userMessage == text
    {
      userMessage := text;
    }

    /** `handleAIChat`: a message that is not blank (one whose `trim()` is non-empty, by
        `TrimEmptyIffBlank`) is appended to the transcript and the input is cleared;
        `now` is the clock. */
    method HandleAiChat(now: int)
      requires Valid()
      modifies this`aiMessages, this`userMessage, this`isAiResponding
      ensures Valid()
      ensures IsBlank(old(userMessage)) ==>
        aiMessages == old(aiMessages) && userMessage == old(userMessage) && isAiResponding == old(isAiResponding)
      ensures !IsBlank(old(userMessage)) ==>
        aiMessages == old(aiMessages) + [ChatMessage(User, old(userMessage), now)]
        && userMessage == "" && isAiResponding
    {
      if IsBlank(userMessage) {
        return;
      }
      var m := ChatMessage(User, userMessage, now);
      AppendWellFormed(aiMessages, m);
      aiMessages := aiMessages + [m];
      userMessage := "";
      isAiResponding := true;
    }

    /** The delayed reply of `handleAIChat`: `choice` is the random index it draws. */
    method DeliverAiReply(choice: nat, now: int)
      requires Valid() && choice < |Responses|
      modifies this`aiMessages, this`isAiResponding
      ensures Valid()
      ensures aiMessages == old(aiMessages) + [ChatMessage(Ai, Responses[choice], now)] && !isAiResponding
    {
      AppendWellFormed(aiMessages, ChatMessage(Ai, Responses[choice], now));
      aiMessages := aiMessages + [ChatMessage(Ai, Responses[choice], now)];
      isAiResponding := false;
    }
  }

  /** Loading twice with no write in between gives the same list. */
  method LoadDataIdempotent(s: AppState, ser: Serializer)
    requires s.Valid()
    modifies s
    ensures s.Valid() && s.fitnessData == LoadedList(ser, s.ledger.GetData(DataKey))
  {
    s.LoadData(ser, ReadOk);
    var first := s.fitnessData;
    s.LoadData(ser, ReadOk);
    assert s.fitnessData == first;
  }

  /** Adding to a lawful store and reloading yields the old list with the new entry at the
      end: every earlier record is unchanged and the entry is numbered after them. */
  method AddThenReload(s: AppState, ser: Serializer)
    requires s.Valid() && s.isConnected && s.address.Some? && Lawful(ser)
    modifies s, s.ledger
    ensures s.Valid()
    ensures s.fitnessData == old(s.fitnessData) + [NewEntry(|old(s.fitnessData)|, old(s.newData))]
    ensures s.fitnessData[|old(s.fitnessData)|].id == |old(s.fitnessData)| + 1
  {
    ghost var before := s.fitnessData;
    s.AddFitnessData(ser, WriteCommits, ReadOk);
    LoadEncoded(ser, Appended(before, s.newData));
  }
}
